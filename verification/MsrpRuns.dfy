/**
  What every run of an MSRP participant keeps: one attribute per key, no failure information
  in Talker Advertise attributes, and a running leave timer while anything is leaving.
 */
module MsrpRuns {
  import opened Mrp
  import opened Mrpdu
  import opened Msrp

  ghost predicate UniqueKeys(s: seq<Attrib>) {
    forall i, j :: 0 <= i < j < |s| ==> KeyOf(s[i]) != KeyOf(s[j])
  }

  /** Facts about one attribute between events; `lv` is the leave timer. */
  predicate Settles(a: Attrib, lv: bool) {
    MsrpKind(a.kind) && Clean(a) && (a.reg.state == LV ==> lv)
  }

  ghost predicate AllSettle(s: seq<Attrib>, lv: bool) {
    forall i :: 0 <= i < |s| ==> Settles(s[i], lv)
  }

  ghost predicate Quiet(s: seq<Attrib>) {
    forall i :: 0 <= i < |s| ==> s[i].reg.notify == NotifyNone
  }

  ghost predicate Valid(db: Db) {
    && UniqueKeys(db.attribs) && AllSettle(db.attribs, db.lv) && Quiet(db.attribs)
    && !db.machine.tx && !db.machine.active
  }

  // ---------------------------------------------------------------- List operations

  /** t is a subsequence of s, position by position given by f. */
  ghost predicate Within(t: seq<Attrib>, s: seq<Attrib>, f: seq<nat>) {
    && |f| == |t|
    && (forall i :: 0 <= i < |t| ==> f[i] < |s| && t[i] == s[f[i]])
    && (forall i, j :: 0 <= i < j < |t| ==> f[i] < f[j])
  }

  lemma WithinKeeps(t: seq<Attrib>, s: seq<Attrib>, f: seq<nat>, lv: bool)
    requires Within(t, s, f)
    ensures UniqueKeys(s) ==> UniqueKeys(t)
    ensures AllSettle(s, lv) ==> AllSettle(t, lv)
    ensures Quiet(s) ==> Quiet(t)
  {
    hide KeyOf, Settles;
  }

  lemma WithinSkip(t: seq<Attrib>, s: seq<Attrib>, f: seq<nat>) returns (g: seq<nat>)
    requires s != [] && Within(t, s[1..], f)
    ensures Within(t, s, g) && forall i :: 0 <= i < |g| ==> g[i] >= 1
  {
    g := seq<nat>(|f|, i requires 0 <= i < |f| => f[i] + 1);
  }

  lemma WithinTake(t: seq<Attrib>, s: seq<Attrib>, f: seq<nat>) returns (g: seq<nat>)
    requires s != [] && Within(t, s[1..], f)
    ensures Within([s[0]] + t, s, g)
  {
    var h := WithinSkip(t, s, f);
    g := [0] + h;
  }

  lemma {:induction false} KeptWithin(s: seq<Attrib>) returns (f: seq<nat>)
    ensures Within(Kept(s), s, f)
    ensures forall i :: 0 <= i < |Kept(s)| ==> !Reclaimable(Kept(s)[i])
  {
    hide Reclaimable;
    if s == [] {
      f := [];
    } else {
      f := KeptWithin(s[1..]);
      if Reclaimable(s[0]) {
        f := WithinSkip(Kept(s[1..]), s, f);
        assert Kept(s) == Kept(s[1..]);
      } else {
        f := WithinTake(Kept(s[1..]), s, f);
      }
    }
  }

  lemma {:induction false} WithoutWithin(s: seq<Attrib>, id: id8) returns (f: seq<nat>)
    ensures Within(WithoutTalkers(s, id), s, f)
    ensures forall i :: 0 <= i < |WithoutTalkers(s, id)| ==> KeyOf(WithoutTalkers(s, id)[i]) != TalkerKey(id)
  {
    hide KeyOf;
    if s == [] {
      f := [];
    } else {
      f := WithoutWithin(s[1..], id);
      if KeyOf(s[0]) == TalkerKey(id) {
        f := WithinSkip(WithoutTalkers(s[1..], id), s, f);
        assert WithoutTalkers(s, id) == WithoutTalkers(s[1..], id);
      } else {
        f := WithinTake(WithoutTalkers(s[1..], id), s, f);
      }
    }
  }

  lemma DroppedWithin(s: seq<Attrib>, k: nat) returns (f: seq<nat>)
    requires k < |s|
    ensures Within(Dropped(s, k), s, f)
  {
    f := seq<nat>(|s| - 1, i requires 0 <= i => if i < k then i else i + 1);
  }

  lemma AddedUnique(s: seq<Attrib>, r: Attrib)
    requires UniqueKeys(s) && !Has(s, KeyOf(r))
    ensures UniqueKeys(Added(s, r))
  {
    hide KeyOf, AddPos;
    var p, t := AddPos(s, r, 0), Added(s, r);
    forall i, j | 0 <= i < j < |t| ensures KeyOf(t[i]) != KeyOf(t[j]) {
      assert i != p ==> t[i] == s[if i < p then i else i - 1];
      assert j != p ==> t[j] == s[if j < p then j else j - 1];
    }
  }

  /** Replacing attributes by attributes with the same keys keeps keys unique. */
  lemma SameKeysUnique(s: seq<Attrib>, t: seq<Attrib>)
    requires UniqueKeys(s) && |t| == |s| && forall i :: 0 <= i < |s| ==> KeyOf(t[i]) == KeyOf(s[i])
    ensures UniqueKeys(t)
  {
    hide KeyOf;
  }

  // ---------------------------------------------------------------- Walks

  lemma WalkedSettles(p2p: bool, a: Attrib, e: Event, kind: Option<Kind>, before: bool, after: bool)
    requires Settles(a, before) && e in {RLa, Tx, TxLa, LvTimer}
    requires e != LvTimer ==> before ==> after
    requires (kind.Some? ==> a.kind == kind.value) && StartsLeaveTimer(a.reg, e) ==> after
    requires e == LvTimer ==> kind.None?
    ensures Settles(Walked(p2p, a, e, kind), after) && KeyOf(Walked(p2p, a, e, kind)) == KeyOf(a)
    ensures e == LvTimer ==> Walked(p2p, a, e, kind).reg.state != LV
  {
    hide NextApplicant, Announcement;
  }

  lemma WalkKeeps(p2p: bool, s: seq<Attrib>, e: Event, kind: Option<Kind>, before: bool, after: bool)
    requires UniqueKeys(s) && AllSettle(s, before) && e in {RLa, Tx, TxLa, LvTimer}
    requires e != LvTimer ==> after == (before || AnyLeaves(s, e, kind))
    requires e == LvTimer ==> kind.None?
    ensures UniqueKeys(WalkedAll(p2p, s, e, kind)) && AllSettle(WalkedAll(p2p, s, e, kind), after)
    ensures e == LvTimer ==> forall i :: 0 <= i < |s| ==> WalkedAll(p2p, s, e, kind)[i].reg.state != LV
  {
    hide Walked, KeyOf, Settles, StartsLeaveTimer;
    var t := WalkedAll(p2p, s, e, kind);
    forall i | 0 <= i < |s|
      ensures Settles(t[i], after) && KeyOf(t[i]) == KeyOf(s[i]) && (e == LvTimer ==> t[i].reg.state != LV)
    {
      NeverLeavesOnLvTimer(s[i].reg, e);
      WalkedSettles(p2p, s[i], e, kind, before, after);
    }
    SameKeysUnique(s, t);
  }

  lemma NeverLeavesOnLvTimer(r: Registrar, e: Event)
    ensures e == LvTimer ==> !StartsLeaveTimer(r, e)
  {
  }

  lemma SettledKeeps(s: seq<Attrib>, lv: bool)
    requires UniqueKeys(s) && AllSettle(s, lv)
    ensures UniqueKeys(SettledAll(s)) && AllSettle(SettledAll(s), lv)
  {
    SameKeysUnique(s, SettledAll(s));
  }

  lemma CalmKeeps(db: Db)
    requires UniqueKeys(db.attribs) && AllSettle(db.attribs, db.lv) && !db.machine.tx && !db.machine.active
    ensures Valid(Calm(db))
  {
    SameKeysUnique(db.attribs, CalmedAll(db.attribs));
  }

  /** Between events no notification is pending, so the notification loop changes nothing. */
  lemma QuietIsCalm(db: Db)
    requires Quiet(db.attribs)
    ensures Calm(db) == db
  {
    assert CalmedAll(db.attribs) == db.attribs;
  }

  // ---------------------------------------------------------------- Value events

  lemma MergedSettles(s: seq<Attrib>, a: Attrib, r: Attrib, lv: bool)
    requires KeyOf(a) == KeyOf(r) && Settles(a, lv) && Arriving(r)
    ensures Settles(Merged(s, a, r), lv)
  {
    hide Has;
  }

  lemma HandledSettles(p2p: bool, a: Attrib, e: Event, lv: bool)
    requires Settles(a, lv) && ValueEvent(e)
    ensures Settles(Handled(p2p, a, e), lv || StartsLeaveTimer(a.reg, RegistrarEvent(e, a.reg.state)))
    ensures KeyOf(Handled(p2p, a, e)) == KeyOf(a)
  {
    hide NextApplicant, Announcement;
  }

  lemma TargetKeeps(s: seq<Attrib>, r: Attrib, lv: bool)
    requires UniqueKeys(s) && AllSettle(s, lv) && Arriving(r)
    ensures UniqueKeys(WithTarget(s, r).0) && AllSettle(WithTarget(s, r).0, lv)
  {
    hide KeyOf, Merged, Settles, Clean, AddPos;
    var k := Find(s, KeyOf(r));
    if k < |s| {
      MergedSettles(s, s[k], r, lv);
      SameKeysUnique(s, s[k := Merged(s, s[k], r)]);
    } else {
      AddedUnique(s, r);
      FreshSettles(r, lv);
    }
  }

  lemma FreshSettles(r: Attrib, lv: bool)
    requires Arriving(r)
    ensures Settles(r, lv)
  {
  }

  lemma TouchedKeeps(p2p: bool, list: seq<Attrib>, k: nat, e: Event, before: bool, after: bool)
    requires k < |list| && UniqueKeys(list) && AllSettle(list, before) && ValueEvent(e)
    requires after == (before || StartsLeaveTimer(list[k].reg, RegistrarEvent(e, list[k].reg.state)))
    ensures UniqueKeys(Touched(p2p, list, k, e)) && AllSettle(Touched(p2p, list, k, e), after)
  {
    hide KeyOf, Handled, Reclaimable, StartsLeaveTimer, RegistrarEvent, Clean;
    HandledSettles(p2p, list[k], e, before);
    if Reclaimable(Handled(p2p, list[k], e)) {
      var f := DroppedWithin(list, k);
      WithinKeeps(Dropped(list, k), list, f, before);
    } else {
      SameKeysUnique(list, list[k := Handled(p2p, list[k], e)]);
    }
  }

  lemma ApplyKeeps(p2p: bool, db: Db, e: Event, r: Attrib)
    requires Valid(db) && ValueEvent(e) && Arriving(r)
    ensures Valid(ApplyStep(p2p, db, e, r))
  {
    hide KeyOf, Touched, WithTarget, UniqueKeys, AllSettle, Quiet, Calm, Arriving, StartsLeaveTimer, RegistrarEvent;
    if !Interested(db, r) {
      QuietIsCalm(db);
    } else if !(e == RMt && !Has(db.attribs, KeyOf(r))) {
      var (list, k) := WithTarget(db.attribs, r);
      TargetKeeps(db.attribs, r, db.lv);
      TargetAt(db.attribs, r);
      var lv := db.lv || StartsLeaveTimer(list[k].reg, RegistrarEvent(e, list[k].reg.state));
      TouchedKeeps(p2p, list, k, e, db.lv, lv);
      CalmKeeps(db.(attribs := Touched(p2p, list, k, e), join := true, lv := lv));
    } else {
      Rejoined(db);
    }
  }

  lemma Rejoined(db: Db)
    requires Valid(db)
    ensures Valid(db.(join := true))
  {
  }

  lemma TargetAt(s: seq<Attrib>, r: Attrib)
    ensures WithTarget(s, r).1 < |WithTarget(s, r).0| && KeyOf(WithTarget(s, r).0[WithTarget(s, r).1]) == KeyOf(r)
  {
  }

  lemma WithoutKeeps(db: Db, id: id8)
    requires Valid(db)
    ensures Valid(db.(attribs := WithoutTalkers(db.attribs, id)))
  {
    var f := WithoutWithin(db.attribs, id);
    WithinKeeps(WithoutTalkers(db.attribs, id), db.attribs, f, db.lv);
  }

  // ---------------------------------------------------------------- Every step, every run

  lemma StepKeeps(p2p: bool, db: Db, input: Input)
    requires Valid(db) && Possible(input)
    ensures Valid(Step(p2p, db, input))
  {
    hide UniqueKeys, AllSettle, Quiet, Calm, WalkedAll, SettledAll, Kept, WithoutTalkers, ApplyStep, Find, Arriving, AnyLeaves, AnotherTxNeeded;
    var s := db.attribs;
    match input
    case Apply(e, r) => ApplyKeeps(p2p, db, e, r);
    case LeaveAllHeard(kind) =>
      WalkKeeps(p2p, s, RLa, Some(kind), db.lv, db.lv || AnyLeaves(s, RLa, Some(kind)));
      CalmKeeps(db.(attribs := WalkedAll(p2p, s, RLa, Some(kind)), join := true,
                    lv := db.lv || AnyLeaves(s, RLa, Some(kind)), lva := true, machine := LvaFsm(db.machine, RLa)));
    case TxTick =>
      TxKeeps(p2p, db);
    case LvTick =>
      LvTickKeeps(p2p, db);
    case LvaTick =>
      LvaKeeps(p2p, db);
    case PeriodicTick => QuietIsCalm(db);
    case Reclaim =>
      var f := KeptWithin(s);
      WithinKeeps(Kept(s), s, f, db.lv);
    case Interest(id, full) =>
    case Uninterest(id) => WithoutKeeps(db, id);
    case UninterestAll =>
    case Withdraw(id, mac) =>
      WithdrawnArrives(s, id, mac);
      ApplyKeeps(p2p, db, Lv, WithdrawnListener(s, id, mac));
      WithoutKeeps(ApplyStep(p2p, db, Lv, WithdrawnListener(s, id, mac)), id);
  }

  lemma WithdrawnArrives(s: seq<Attrib>, id: id8, mac: seq<int>)
    ensures Arriving(WithdrawnListener(s, id, mac))
  {
  }

  lemma TxKeeps(p2p: bool, db: Db)
    requires Valid(db)
    ensures Valid(Step(p2p, db, TxTick))
  {
    hide UniqueKeys, AllSettle, Calm, WalkedAll, SettledAll, AnotherTxNeeded;
    var w := WalkedAll(p2p, db.attribs, Tx, None);
    NobodyLeavesOnTx(db.attribs);
    WalkKeeps(p2p, db.attribs, Tx, None, db.lv, db.lv);
    SettledKeeps(w, db.lv);
    CalmKeeps(db.(attribs := SettledAll(w), join := AnotherTxNeeded(w), machine := db.machine.(tx := false)));
  }

  lemma NobodyLeavesOnTx(s: seq<Attrib>)
    ensures !AnyLeaves(s, Tx, None)
  {
  }

  lemma LvaKeeps(p2p: bool, db: Db)
    requires Valid(db)
    ensures Valid(Step(p2p, db, LvaTick))
  {
    hide UniqueKeys, AllSettle, Calm, WalkedAll, SettledAll, AnyLeaves;
    var s := db.attribs;
    var lv := db.lv || AnyLeaves(s, TxLa, None);
    var w := WalkedAll(p2p, s, TxLa, None);
    WalkKeeps(p2p, s, TxLa, None, db.lv, lv);
    SettledKeeps(w, lv);
    CalmKeeps(db.(attribs := SettledAll(w), join := false, lv := lv, lva := true,
                  machine := LvaFsm(LvaFsm(db.machine, LvaTimer), Tx).(tx := false)));
  }

  /** Expiry of the leave timer leaves nothing leaving and nothing reclaimable behind. */
  lemma LvTickKeeps(p2p: bool, db: Db)
    requires Valid(db)
    ensures var after := Step(p2p, db, LvTick);
            && Valid(after) && !after.lv
            && forall i :: 0 <= i < |after.attribs| ==> after.attribs[i].reg.state != LV && !Reclaimable(after.attribs[i])
  {
    hide UniqueKeys, Calm, WalkedAll, Kept, Settles, Reclaimable;
    var w := WalkedAll(p2p, db.attribs, LvTimer, None);
    WalkKeeps(p2p, db.attribs, LvTimer, None, db.lv, false);
    var f := KeptWithin(w);
    WithinKeeps(Kept(w), w, f, false);
    var next := db.(attribs := Kept(w), lv := false);
    CalmKeeps(next);
    CalmAt(next, 0);
    forall i | 0 <= i < |Calm(next).attribs|
      ensures Calm(next).attribs[i].reg.state != LV && !Reclaimable(Calm(next).attribs[i])
    {
      CalmAt(next, i);
      assert w[f[i]].reg.state != LV;
    }
  }

  lemma CalmAt(db: Db, i: nat)
    ensures |Calm(db).attribs| == |db.attribs| && Calm(db).lv == db.lv
    ensures i < |db.attribs| ==> Calm(db).attribs[i].reg.state == db.attribs[i].reg.state
    ensures i < |db.attribs| ==> (Reclaimable(Calm(db).attribs[i]) <==> Reclaimable(db.attribs[i]))
  {
  }

  lemma InitialValid(pruning: bool)
    ensures Valid(InitialDb(pruning))
  {
  }

  /** In every run: unique keys, clean advertisements, a leave timer that covers all leavers. */
  lemma {:induction false} RunKeepsValid(p2p: bool, pruning: bool, run: seq<Input>)
    requires PossibleRun(run)
    ensures Valid(After(p2p, pruning, run))
  {
    hide Step, UniqueKeys, Possible;
    if run == [] {
      InitialValid(pruning);
    } else {
      var before := run[..|run| - 1];
      RunKeepsValid(p2p, pruning, before);
      assert Possible(run[|run| - 1]);
      StepKeeps(p2p, After(p2p, pruning, before), run[|run| - 1]);
    }
  }
}
