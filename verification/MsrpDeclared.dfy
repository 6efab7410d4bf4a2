/**
  What an MSRP participant declares, over every run: the client's commands decide, except that
  pruning can drop a command and can take a declared talker out.
 */
module MsrpDeclared {
  import opened Mrp
  import opened Mrpdu
  import opened Msrp
  import opened MsrpRuns
  import opened MsrpKeys
  import MvrpRuns

  // ---------------------------------------------------------------- Lists, one key at a time

  /** A list whose attributes were replaced in place, keys kept. */
  lemma GetMapped(s: seq<Attrib>, t: seq<Attrib>, key: Key)
    requires UniqueKeys(s) && |t| == |s| && forall i :: 0 <= i < |s| ==> KeyOf(t[i]) == KeyOf(s[i])
    ensures UniqueKeys(t)
    ensures Get(s, key).None? ==> Get(t, key).None?
    ensures Get(s, key).Some? ==> Find(s, key) < |t| && Get(t, key) == Some(t[Find(s, key)])
  {
    hide KeyOf, UniqueKeys;
    SameKeysUnique(s, t);
    var k := Find(s, key);
    if k < |s| {
      GetAt(t, k, key);
    } else {
      GetNone(t, key);
    }
  }

  lemma {:induction false} GetKept(s: seq<Attrib>, key: Key)
    requires UniqueKeys(s)
    ensures var o := Get(s, key);
            Get(Kept(s), key) == if o.Some? && !Reclaimable(o.value) then o else None
  {
    hide KeyOf, Reclaimable, Kept;
    var f := KeptWithin(s);
    KeptHolds(s);
    WithinKeeps(Kept(s), s, f, true);
    GetFiltered(s, Kept(s), f, key);
  }

  /** Everything that is not reclaimable is kept. */
  lemma {:induction false} KeptHolds(s: seq<Attrib>)
    ensures forall i :: 0 <= i < |s| && !Reclaimable(s[i]) ==> s[i] in Kept(s)
  {
    hide Reclaimable;
    if s != [] {
      KeptHolds(s[1..]);
      forall i | 0 <= i < |s| && !Reclaimable(s[i]) ensures s[i] in Kept(s) {
        if i > 0 {
          assert s[i] == s[1..][i - 1];
        }
      }
    }
  }

  lemma {:induction false} WithoutHolds(s: seq<Attrib>, id: id8)
    ensures forall i :: 0 <= i < |s| && KeyOf(s[i]) != TalkerKey(id) ==> s[i] in WithoutTalkers(s, id)
  {
    hide KeyOf;
    if s != [] {
      WithoutHolds(s[1..], id);
      forall i | 0 <= i < |s| && KeyOf(s[i]) != TalkerKey(id) ensures s[i] in WithoutTalkers(s, id) {
        if i > 0 {
          assert s[i] == s[1..][i - 1];
        }
      }
    }
  }

  /** The attribute of a key in a sublist is the one in the list, if it is there at all. */
  lemma GetFiltered(s: seq<Attrib>, t: seq<Attrib>, f: seq<nat>, key: Key)
    requires UniqueKeys(s) && UniqueKeys(t) && Within(t, s, f)
    ensures Get(t, key) == if Get(s, key).Some? && Get(s, key).value in t then Get(s, key) else None
  {
    hide KeyOf, UniqueKeys;
    var k := Find(t, key);
    if k < |t| {
      GetAt(s, f[k], key);
    }
  }

  lemma GetWithout(s: seq<Attrib>, id: id8, key: Key)
    requires UniqueKeys(s)
    ensures Get(WithoutTalkers(s, id), key) == if key == TalkerKey(id) then None else Get(s, key)
  {
    hide KeyOf, WithoutTalkers;
    var f := WithoutWithin(s, id);
    WithoutHolds(s, id);
    WithinKeeps(WithoutTalkers(s, id), s, f, true);
    GetFiltered(s, WithoutTalkers(s, id), f, key);
  }

  // ---------------------------------------------------------------- One step

  predicate IsDeclared(o: Option<Attrib>) {
    o.Some? && MvrpRuns.DeclaredState(o.value.app.state)
  }

  predicate ClientJoins(e: Event) { e in {New, Join} }

  /** What a step makes of a key's declaration. */
  predicate NowDeclared(db: Db, input: Input, key: Key, was: bool) {
    match input
    case Apply(e, r) =>
      if KeyOf(r) == key && Interested(db, r) && ClientJoins(e) then true
      else if KeyOf(r) == key && Interested(db, r) && e == Lv then false
      else was
    case Uninterest(id) =>
      was && !(key == TalkerKey(id) && db.pruning && id in db.interesting && !Has(db.attribs, ListenerKey(id)))
    case Withdraw(id, _) =>
      was && key != ListenerKey(id) && !(key == TalkerKey(id) && db.pruning && id !in db.interesting)
    case _ => was
  }

  lemma DeclaredWalk(p2p: bool, a: Attrib, e: Event, kind: Option<Kind>)
    requires e in {Tx, TxLa, RLa, LvTimer}
    ensures MvrpRuns.DeclaredState(Walked(p2p, a, e, kind).app.state) <==> MvrpRuns.DeclaredState(a.app.state)
    ensures KeyOf(Walked(p2p, a, e, kind)) == KeyOf(a)
  {
  }

  /** Walks, transmissions and notifications leave declarations alone. */
  lemma WalkDeclared(p2p: bool, s: seq<Attrib>, e: Event, kind: Option<Kind>, key: Key)
    requires UniqueKeys(s) && e in {Tx, TxLa, RLa, LvTimer}
    ensures var w := WalkedAll(p2p, s, e, kind);
            && UniqueKeys(w) && (IsDeclared(Get(w, key)) <==> IsDeclared(Get(s, key)))
  {
    hide Walked, KeyOf, UniqueKeys, MvrpRuns.DeclaredState;
    var w := WalkedAll(p2p, s, e, kind);
    forall i | 0 <= i < |s|
      ensures KeyOf(w[i]) == KeyOf(s[i])
      ensures MvrpRuns.DeclaredState(w[i].app.state) <==> MvrpRuns.DeclaredState(s[i].app.state)
    {
      DeclaredWalk(p2p, s[i], e, kind);
    }
    GetMapped(s, w, key);
  }

  lemma FlagsDeclared(s: seq<Attrib>, key: Key)
    requires UniqueKeys(s)
    ensures UniqueKeys(SettledAll(s)) && UniqueKeys(CalmedAll(s))
    ensures IsDeclared(Get(SettledAll(s), key)) <==> IsDeclared(Get(s, key))
    ensures IsDeclared(Get(CalmedAll(s), key)) <==> IsDeclared(Get(s, key))
  {
    hide KeyOf, UniqueKeys, MvrpRuns.DeclaredState;
    FlagsKey(s);
    GetMapped(s, SettledAll(s), key);
    GetMapped(s, CalmedAll(s), key);
  }

  lemma KeptDeclared(s: seq<Attrib>, key: Key)
    requires UniqueKeys(s)
    ensures UniqueKeys(Kept(s)) && (IsDeclared(Get(Kept(s), key)) <==> IsDeclared(Get(s, key)))
  {
    hide KeyOf, UniqueKeys, Kept;
    var f := KeptWithin(s);
    WithinKeeps(Kept(s), s, f, true);
    GetKept(s, key);
  }

  lemma HandledDeclared(p2p: bool, a: Attrib, e: Event)
    requires ValueEvent(e)
    ensures var b := Handled(p2p, a, e);
            && (MvrpRuns.DeclaredState(b.app.state) <==> ClientJoins(e) || (MvrpRuns.DeclaredState(a.app.state) && e != Lv))
            && (Reclaimable(b) ==> !MvrpRuns.DeclaredState(b.app.state))
  {
    hide NextRegistrar, Notification;
  }

  lemma ActedDeclared(s: seq<Attrib>, r: Attrib)
    requires Arriving(r)
    ensures MvrpRuns.DeclaredState(Acted(s, r).app.state) <==> IsDeclared(Get(s, KeyOf(r)))
  {
    hide Has, KeyOf;
  }

  lemma ApplyDeclared(p2p: bool, db: Db, e: Event, r: Attrib, key: Key)
    requires Valid(db) && ValueEvent(e) && Arriving(r)
    ensures IsDeclared(Get(ApplyStep(p2p, db, e, r).attribs, key))
       <==> NowDeclared(db, Apply(e, r), key, IsDeclared(Get(db.attribs, key)))
  {
    hide KeyOf, Handled, Acted, Reclaimable, Valid, Arriving, Interested, MvrpRuns.DeclaredState, Get, WithTarget, Touched;
    if !Interested(db, r) {
      PrunedTalkerIgnored(p2p, db, e, r);
    } else if !(e == RMt && !Has(db.attribs, KeyOf(r))) {
      ApplyPerKey(p2p, db, e, r, key);
      HandledDeclared(p2p, Acted(db.attribs, r), e);
      ActedDeclared(db.attribs, r);
    }
  }

  lemma StepDeclared(p2p: bool, db: Db, input: Input, key: Key)
    requires Valid(db) && Possible(input)
    ensures IsDeclared(Get(Step(p2p, db, input).attribs, key))
       <==> NowDeclared(db, input, key, IsDeclared(Get(db.attribs, key)))
  {
    hide KeyOf, UniqueKeys, AllSettle, Quiet, ApplyStep, WalkedAll, SettledAll, CalmedAll, Kept, WithoutTalkers, Get, Find, MvrpRuns.DeclaredState, Arriving, Interested, AnyLeaves, AnotherTxNeeded, Has;
    var s := db.attribs;
    match input
    case Apply(e, r) => ApplyDeclared(p2p, db, e, r, key);
    case LeaveAllHeard(kind) =>
      WalkDeclared(p2p, s, RLa, Some(kind), key);
      FlagsDeclared(WalkedAll(p2p, s, RLa, Some(kind)), key);
    case TxTick =>
      WalkDeclared(p2p, s, Tx, None, key);
      FlagsDeclared(WalkedAll(p2p, s, Tx, None), key);
      FlagsDeclared(SettledAll(WalkedAll(p2p, s, Tx, None)), key);
    case LvTick =>
      WalkDeclared(p2p, s, LvTimer, None, key);
      KeptDeclared(WalkedAll(p2p, s, LvTimer, None), key);
      FlagsDeclared(Kept(WalkedAll(p2p, s, LvTimer, None)), key);
    case LvaTick =>
      WalkDeclared(p2p, s, TxLa, None, key);
      FlagsDeclared(WalkedAll(p2p, s, TxLa, None), key);
      FlagsDeclared(SettledAll(WalkedAll(p2p, s, TxLa, None)), key);
    case PeriodicTick => FlagsDeclared(s, key);
    case Reclaim => KeptDeclared(s, key);
    case Interest(_, _) =>
    case Uninterest(id) => GetWithout(s, id, key);
    case UninterestAll =>
    case Withdraw(id, mac) => WithdrawDeclared(p2p, db, id, mac, key);
  }

  lemma WithdrawDeclared(p2p: bool, db: Db, id: id8, mac: seq<int>, key: Key)
    requires Valid(db)
    ensures IsDeclared(Get(Step(p2p, db, Withdraw(id, mac)).attribs, key))
       <==> NowDeclared(db, Withdraw(id, mac), key, IsDeclared(Get(db.attribs, key)))
  {
    hide KeyOf, UniqueKeys, ApplyStep, WithoutTalkers, Get, MvrpRuns.DeclaredState, Arriving, WithdrawnListener;
    var r := WithdrawnListener(db.attribs, id, mac);
    WithdrawnArrives(db.attribs, id, mac);
    WithdrawnKey(db.attribs, id, mac);
    WithdrawnInterests(db, id, mac);
    ApplyDeclared(p2p, db, Lv, r, key);
    ApplyKeeps(p2p, db, Lv, r);
    ApplyPruning(p2p, db, Lv, r);
    GetWithout(ApplyStep(p2p, db, Lv, r).attribs, id, key);
  }

  lemma WithdrawnInterests(db: Db, id: id8, mac: seq<int>)
    ensures Interested(db, WithdrawnListener(db.attribs, id, mac))
  {
  }

  // ---------------------------------------------------------------- Every run

  /** The declaration of a key as the history of inputs makes it. */
  predicate DeclaredBy(p2p: bool, pruning: bool, run: seq<Input>, key: Key) {
    run != [] &&
    var before := run[..|run| - 1];
    NowDeclared(After(p2p, pruning, before), run[|run| - 1], key, DeclaredBy(p2p, pruning, before, key))
  }

  /**
    In every run an attribute is listed with a declaring applicant exactly when the last client
    command about it that was not pruned away was New or Join and no I-S or S-L has since taken
    its talker out; nothing received and no timer matters.
   */
  lemma {:induction false} DeclaredExactly(p2p: bool, pruning: bool, run: seq<Input>, key: Key)
    requires PossibleRun(run)
    ensures IsDeclared(Get(After(p2p, pruning, run).attribs, key)) <==> DeclaredBy(p2p, pruning, run, key)
  {
    hide Step, NowDeclared, Possible;
    if run != [] {
      var before := run[..|run| - 1];
      DeclaredExactly(p2p, pruning, before, key);
      RunKeepsValid(p2p, pruning, before);
      assert Possible(run[|run| - 1]);
      StepDeclared(p2p, After(p2p, pruning, before), run[|run| - 1], key);
    }
  }

  /** The last command about a key was New or Join. */
  predicate LastJoined(run: seq<Input>, key: Key) {
    run != [] &&
    match run[|run| - 1]
    case Apply(e, r) =>
      if KeyOf(r) == key && (ClientJoins(e) || e == Lv) then ClientJoins(e) else LastJoined(run[..|run| - 1], key)
    case Withdraw(id, _) => key != ListenerKey(id) && LastJoined(run[..|run| - 1], key)
    case _ => LastJoined(run[..|run| - 1], key)
  }

  /** Without pruning, and for listeners and domains always, the commands alone decide. */
  lemma {:induction false} CommandsDecide(p2p: bool, pruning: bool, run: seq<Input>, key: Key)
    requires PossibleRun(run) && (pruning ==> !key.TalkerKey?)
    ensures IsDeclared(Get(After(p2p, pruning, run).attribs, key)) <==> LastJoined(run, key)
  {
    DeclaredExactly(p2p, pruning, run, key);
    DeclaredIsLast(p2p, pruning, run, key);
  }

  lemma {:induction false} DeclaredIsLast(p2p: bool, pruning: bool, run: seq<Input>, key: Key)
    requires pruning ==> !key.TalkerKey?
    ensures DeclaredBy(p2p, pruning, run, key) <==> LastJoined(run, key)
  {
    hide After, Has;
    if run != [] {
      var before := run[..|run| - 1];
      DeclaredIsLast(p2p, pruning, before, key);
      PruningStays(p2p, pruning, before);
    }
  }

  // ---------------------------------------------------------------- Where pruning overrules the client

  /** With pruning on, an own New for a stream that is not listed is dropped. */
  lemma OwnNewDropped(p2p: bool, id: id8)
    ensures var run := [Apply(New, Fresh(TalkerAdv, id, []))];
            && PossibleRun(run) && LastJoined(run, TalkerKey(id))
            && !IsDeclared(Get(After(p2p, true, run).attribs, TalkerKey(id)))
  {
    hide Step;
    var r := Fresh(TalkerAdv, id, []);
    var run := [Apply(New, r)];
    assert run[..0] == [] && Possible(run[0]);
    assert !Interested(InitialDb(true), r);
    DeclaredExactly(p2p, true, run, TalkerKey(id));
    assert !DeclaredBy(p2p, true, run[..0], TalkerKey(id));
  }

  /** A talker the client has declared is taken out when the client stops listing its stream. */
  lemma OwnTalkerTakenOut(p2p: bool, id: id8)
    ensures var run := [Interest(id, false), Apply(New, Fresh(TalkerAdv, id, [])), Uninterest(id)];
            && PossibleRun(run) && LastJoined(run, TalkerKey(id))
            && IsDeclared(Get(After(p2p, true, run[..2]).attribs, TalkerKey(id)))
            && !IsDeclared(Get(After(p2p, true, run).attribs, TalkerKey(id)))
  {
    hide ApplyStep;
    var r, key := Fresh(TalkerAdv, id, []), TalkerKey(id);
    var run := [Interest(id, false), Apply(New, r), Uninterest(id)];
    var one, two := [Interest(id, false)], [Interest(id, false), Apply(New, r)];
    assert run[..2] == two && two[..1] == one && one[..0] == [];
    assert Arriving(r) && KeyOf(r) == key;
    assert PossibleRun(two) && PossibleRun(run);
    var listed := After(p2p, true, one);
    ListedAfter(p2p, id);
    assert Interested(listed, r);
    var joined := After(p2p, true, two);
    assert joined == ApplyStep(p2p, listed, New, r);
    ApplyPruning(p2p, listed, New, r);
    DeclaredExactly(p2p, true, two, key);
    NoListenerYet(p2p, listed, r, id);
    DeclaredExactly(p2p, true, run, key);
    assert LastJoined(two, key);
  }

  lemma ListedAfter(p2p: bool, id: id8)
    ensures After(p2p, true, [Interest(id, false)]) == InitialDb(true).(interesting := {id})
  {
    var one, none: seq<Input> := [Interest(id, false)], [];
    assert one[..0] == none && After(p2p, true, none) == InitialDb(true);
    var db := InitialDb(true);
    assert db.interesting == {} && db.interesting + {id} == {id};
    assert Step(p2p, db, one[0]) == db.(interesting := {id});
  }

  lemma NoListenerYet(p2p: bool, db: Db, r: Attrib, id: id8)
    requires db == InitialDb(true).(interesting := {id}) && r == Fresh(TalkerAdv, id, [])
    ensures !Has(ApplyStep(p2p, db, New, r).attribs, ListenerKey(id))
  {
    hide ApplyStep;
    assert Valid(db) && Arriving(r);
    if Has(ApplyStep(p2p, db, New, r).attribs, ListenerKey(id)) {
      ApplyNewKey(p2p, db, New, r, ListenerKey(id));
    }
  }

  /** And an own Lv is dropped once the stream is no longer wanted: I-A forgets the stream, not the talker. */
  lemma OwnLvDropped(p2p: bool, id: id8)
    ensures var r := Fresh(TalkerAdv, id, []);
            var run := [Interest(id, false), Apply(New, r), UninterestAll, Apply(Lv, r)];
            && PossibleRun(run) && !LastJoined(run, TalkerKey(id))
            && IsDeclared(Get(After(p2p, true, run).attribs, TalkerKey(id)))
  {
    hide ApplyStep;
    var r, key := Fresh(TalkerAdv, id, []), TalkerKey(id);
    var run := [Interest(id, false), Apply(New, r), UninterestAll, Apply(Lv, r)];
    var one, two := [Interest(id, false)], [Interest(id, false), Apply(New, r)];
    var three := [Interest(id, false), Apply(New, r), UninterestAll];
    assert run[..3] == three && three[..2] == two && two[..1] == one && one[..0] == [];
    assert Arriving(r) && KeyOf(r) == key;
    assert PossibleRun(run);
    var listed := After(p2p, true, one);
    ListedAfter(p2p, id);
    assert Interested(listed, r);
    var joined, cleared := After(p2p, true, two), After(p2p, true, three);
    assert joined == ApplyStep(p2p, listed, New, r);
    assert cleared == joined.(interesting := {});
    ApplyPruning(p2p, listed, New, r);
    NoListenerYet(p2p, listed, r, id);
    assert !Interested(cleared, r);
    assert DeclaredBy(p2p, true, two, key);
    assert DeclaredBy(p2p, true, three, key);
    DeclaredExactly(p2p, true, run, key);
  }
}
