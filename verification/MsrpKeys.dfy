/**
  MSRP attribute by attribute: an event for one key leaves every other key alone, and with
  pruning on, a talker is in the list only because somebody wanted its stream.
 */
module MsrpKeys {
  import opened Mrp
  import opened Mrpdu
  import opened Msrp
  import opened MsrpRuns

  function Get(s: seq<Attrib>, key: Key): Option<Attrib> {
    var k := Find(s, key);
    if k < |s| then Some(s[k]) else None
  }

  lemma GetAt(s: seq<Attrib>, k: nat, key: Key)
    requires UniqueKeys(s) && k < |s| && KeyOf(s[k]) == key
    ensures Get(s, key) == Some(s[k])
  {
    hide KeyOf;
    assert Find(s, key) == k;
  }

  lemma GetNone(s: seq<Attrib>, key: Key)
    requires forall i :: 0 <= i < |s| ==> KeyOf(s[i]) != key
    ensures Get(s, key) == None
  {
    hide KeyOf;
  }

  /** Two lists with unique keys that hold the same attributes under a key. */
  lemma SameGet(s: seq<Attrib>, t: seq<Attrib>, key: Key)
    requires UniqueKeys(s) && UniqueKeys(t)
    requires forall i :: 0 <= i < |s| && KeyOf(s[i]) == key ==> s[i] in t
    requires forall i :: 0 <= i < |t| && KeyOf(t[i]) == key ==> t[i] in s
    ensures Get(s, key) == Get(t, key)
  {
    hide KeyOf, UniqueKeys;
    if Find(s, key) < |s| {
      var a := s[Find(s, key)];
      assert a in t;
      var j :| 0 <= j < |t| && t[j] == a;
      GetAt(t, j, key);
    } else {
      GetNone(s, key);
      GetNone(t, key);
    }
  }

  // ---------------------------------------------------------------- One key per event

  lemma {:induction false} GetCalmed(s: seq<Attrib>, key: Key)
    requires UniqueKeys(s)
    ensures Get(CalmedAll(s), key) == if Get(s, key).Some? then Some(Calmed(Get(s, key).value)) else None
  {
    var k, t := Find(s, key), CalmedAll(s);
    SameKeysUnique(s, t);
    if k < |s| {
      GetAt(t, k, key);
    } else {
      GetNone(t, key);
    }
  }

  lemma AddedOthers(s: seq<Attrib>, r: Attrib, key: Key)
    requires UniqueKeys(s) && !Has(s, KeyOf(r)) && key != KeyOf(r)
    ensures Get(Added(s, r), key) == Get(s, key)
  {
    hide KeyOf, AddPos;
    AddedUnique(s, r);
    var t, p := Added(s, r), AddPos(s, r, 0);
    forall i | 0 <= i < |s| ensures s[i] in t {
      assert t[if i < p then i else i + 1] == s[i];
    }
    forall i | 0 <= i < |t| && KeyOf(t[i]) == key ensures t[i] in s {
      assert t[i] == s[if i < p then i else i - 1];
    }
    SameGet(s, t, key);
  }

  lemma TargetOthers(s: seq<Attrib>, r: Attrib, key: Key)
    requires UniqueKeys(s) && key != KeyOf(r)
    ensures UniqueKeys(WithTarget(s, r).0)
    ensures Get(WithTarget(s, r).0, key) == Get(s, key)
  {
    hide KeyOf, AddPos, Merged;
    var k := Find(s, KeyOf(r));
    if k < |s| {
      UpdatedOthers(s, k, Merged(s, s[k], r), key);
    } else {
      AddedUnique(s, r);
      AddedOthers(s, r, key);
    }
  }

  lemma UpdatedOthers(s: seq<Attrib>, k: nat, b: Attrib, key: Key)
    requires UniqueKeys(s) && k < |s| && KeyOf(b) == KeyOf(s[k]) != key
    ensures UniqueKeys(s[k := b]) && Get(s[k := b], key) == Get(s, key)
  {
    hide KeyOf;
    var t := s[k := b];
    SameKeysUnique(s, t);
    forall i | 0 <= i < |s| && KeyOf(s[i]) == key ensures s[i] in t {
      assert t[i] == s[i];
    }
    SameGet(s, t, key);
  }

  lemma DroppedOthers(s: seq<Attrib>, k: nat, key: Key)
    requires UniqueKeys(s) && k < |s|
    ensures UniqueKeys(Dropped(s, k))
    ensures Get(Dropped(s, k), key) == if key == KeyOf(s[k]) then None else Get(s, key)
  {
    hide KeyOf;
    var t := Dropped(s, k);
    var f := DroppedWithin(s, k);
    WithinKeeps(t, s, f, true);
    if key == KeyOf(s[k]) {
      forall i | 0 <= i < |t| ensures KeyOf(t[i]) != key {
        assert t[i] == s[if i < k then i else i + 1];
      }
      GetNone(t, key);
    } else {
      forall i | 0 <= i < |s| && KeyOf(s[i]) == key ensures s[i] in t {
        assert t[if i < k then i else i - 1] == s[i];
      }
      SameGet(s, t, key);
    }
  }

  lemma HandledKey(p2p: bool, a: Attrib, e: Event)
    ensures KeyOf(Handled(p2p, a, e)) == KeyOf(a)
  {
    hide NextApplicant, Announcement, NextRegistrar, Notification;
  }

  lemma TouchedGet(p2p: bool, list: seq<Attrib>, k: nat, e: Event, key: Key)
    requires UniqueKeys(list) && k < |list|
    ensures UniqueKeys(Touched(p2p, list, k, e))
    ensures var b := Handled(p2p, list[k], e);
            Get(Touched(p2p, list, k, e), key)
            == if key != KeyOf(list[k]) then Get(list, key) else if Reclaimable(b) then None else Some(b)
  {
    hide KeyOf, Handled, Reclaimable, UniqueKeys;
    var b := Handled(p2p, list[k], e);
    HandledKey(p2p, list[k], e);
    if Reclaimable(b) {
      DroppedOthers(list, k, key);
    } else if key != KeyOf(list[k]) {
      UpdatedOthers(list, k, b, key);
    } else {
      UpdatedUnique(list, k, b);
      GetAt(list[k := b], k, key);
    }
  }

  lemma UpdatedUnique(s: seq<Attrib>, k: nat, b: Attrib)
    requires UniqueKeys(s) && k < |s| && KeyOf(b) == KeyOf(s[k])
    ensures UniqueKeys(s[k := b])
  {
    hide KeyOf;
    SameKeysUnique(s, s[k := b]);
  }

  /** The attribute an event for `r` acts on: the merged one, or `r` itself. */
  function Acted(s: seq<Attrib>, r: Attrib): (a: Attrib)
    ensures KeyOf(a) == KeyOf(r)
  {
    var k := Find(s, KeyOf(r));
    if k < |s| then Merged(s, s[k], r) else r
  }

  lemma ActedIs(s: seq<Attrib>, r: Attrib)
    ensures WithTarget(s, r).0[WithTarget(s, r).1] == Acted(s, r)
  {
    hide KeyOf, Merged, AddPos;
  }

  /**
    An event for `r` that is not ignored changes `r`'s key to what its machines say, or drops
    it when nobody wants it any more, and changes no other key.
   */
  lemma ApplyPerKey(p2p: bool, db: Db, e: Event, r: Attrib, key: Key)
    requires Valid(db) && ValueEvent(e) && Arriving(r) && Interested(db, r)
    requires !(e == RMt && !Has(db.attribs, KeyOf(r)))
    ensures var b := Handled(p2p, Acted(db.attribs, r), e);
            Get(ApplyStep(p2p, db, e, r).attribs, key)
            == if key != KeyOf(r) then Get(db.attribs, key) else if Reclaimable(b) then None else Some(Calmed(b))
  {
    hide KeyOf, Handled, Touched, Acted, Reclaimable, WithTarget, UniqueKeys, AllSettle, Interested, Arriving, CalmedAll, StartsLeaveTimer, RegistrarEvent;
    var s := db.attribs;
    var (list, k) := WithTarget(s, r);
    TargetAt(s, r);
    ActedIs(s, r);
    TargetKeeps(s, r, db.lv);
    TouchedGet(p2p, list, k, e, key);
    GetCalmed(Touched(p2p, list, k, e), key);
    if key != KeyOf(r) {
      TargetOthers(s, r, key);
      QuietGet(s, key);
    }
  }

  lemma QuietGet(s: seq<Attrib>, key: Key)
    requires Quiet(s)
    ensures Get(s, key).Some? ==> Calmed(Get(s, key).value) == Get(s, key).value
  {
  }

  // ---------------------------------------------------------------- Merging

  /**
    The arriving attribute changes what clients should know: another talker type in the same
    direction, another listener substate unless it leaves AskingFailed with no talker known,
    or another priority or VID of the class.
   */
  predicate BringsNews(s: seq<Attrib>, a: Attrib, r: Attrib) {
    if IsTalker(a.kind) then a.declare == r.declare && a.kind != r.kind
    else if a.kind == Listener then
      a.sub != r.sub && (a.sub == LISTENER_ASKFAILED ==> Has(s, TalkerKey(a.talker.streamId)))
    else a.domain.priority != r.domain.priority || a.domain.vlan != r.domain.vlan
  }

  predicate Received(e: Event) {
    e in {RNew, RJoinIn, RJoinMt, RIn, RMt, RLv}
  }

  /**
    Hearing a registered attribute again. Merging empties the registrar when there is news, and
    only a New or a Join fills it again: then the clients are notified exactly of news or of a
    New. An In or Mt with news unregisters the attribute and notifies nothing, and an Lv with
    news unregisters it without the leave timer.
   */
  lemma NewsIsNotified(p2p: bool, s: seq<Attrib>, a: Attrib, r: Attrib, e: Event)
    requires KeyOf(a) == KeyOf(r) && a.reg.state == IN && Received(e)
    ensures var m := Merged(s, a, r);
            var b, news := Handled(p2p, m, e), BringsNews(s, a, r);
            && b.reg.state == (if e in {RNew, RJoinIn, RJoinMt} then IN
                               else if news then MT
                               else if e == RLv then LV else IN)
            && b.reg.notify == (if e == RNew then NotifyNew
                                else if e == RLv then NotifyLv
                                else if e in {RJoinIn, RJoinMt} && news then NotifyJoin else NotifyNone)
            && (StartsLeaveTimer(m.reg, RegistrarEvent(e, m.reg.state)) <==> e == RLv && !news)
            && (b.reg.state == MT && b.reg.notify == NotifyNone && !Reclaimable(b) <==>
                  e in {RIn, RMt} && news && NextApplicant(p2p, a.app.state, e, false) !in {VO, AO, QO})
  {
    hide NextApplicant, Announcement, Has;
    ForgottenApplicant(p2p, a.app.state, e);
  }

  /** The Applicant looks at the Registrar only when it transmits. */
  lemma ForgottenApplicant(p2p: bool, x: ApplicantState, e: Event)
    requires Received(e)
    ensures NextApplicant(p2p, x, e, true) == NextApplicant(p2p, x, e, false)
  {
  }

  /** A listener or domain that arrives first is registered as it says. */
  lemma FirstRegistered(p2p: bool, pruning: bool, e: Event, r: Attrib)
    requires Arriving(r) && !IsTalker(r.kind) && e in {Join, RJoinIn}
    ensures var db := Step(p2p, InitialDb(pruning), Apply(e, r));
            && Valid(db) && Get(db.attribs, KeyOf(r)) == Some(Calmed(Handled(p2p, r, e)))
            && Handled(p2p, r, e)
               == r.(app := Handled(p2p, r, e).app, reg := Handled(p2p, r, e).reg)
            && Handled(p2p, r, e).reg.state == IN && Handled(p2p, r, e).app.state == NextApplicant(p2p, VO, e, false)
  {
    hide NextApplicant, Announcement, KeyOf, Valid;
    NothingValid(pruning);
    NothingGot(r);
    StepKeeps(p2p, InitialDb(pruning), Apply(e, r));
    ApplyPerKey(p2p, InitialDb(pruning), e, r, KeyOf(r));
  }

  lemma NothingValid(pruning: bool)
    ensures Valid(InitialDb(pruning))
  {
  }

  lemma NothingGot(r: Attrib)
    ensures Acted([], r) == r && !Has([], KeyOf(r))
  {
  }

  /** An In for a registered listener or domain, with news. */
  lemma InWithNews(p2p: bool, db: Db, a: Attrib, r: Attrib)
    requires Valid(db) && Arriving(r) && !IsTalker(r.kind)
    requires Get(db.attribs, KeyOf(r)) == Some(a) && KeyOf(a) == KeyOf(r) && a.reg.state == IN
    requires BringsNews(db.attribs, a, r)
    ensures var b := Handled(p2p, Acted(db.attribs, r), RIn);
            var p := Get(Step(p2p, db, Apply(RIn, r)).attribs, KeyOf(r));
            && b.reg.notify == NotifyNone
            && if a.app.state in {VO, AO, QO} then p == None
               else p.Some? && p.value.reg.state == MT
  {
    hide NextApplicant, Announcement, KeyOf, Valid, Arriving, BringsNews, Merged, ApplyStep, Registered;
    NewsIsNotified(p2p, db.attribs, a, r, RIn);
    ApplyPerKey(p2p, db, RIn, r, KeyOf(r));
    InKeepsPassive(p2p, a.app.state);
  }

  lemma InKeepsPassive(p2p: bool, x: ApplicantState)
    ensures NextApplicant(p2p, x, RIn, false) in {VO, AO, QO} <==> x in {VO, AO, QO}
  {
  }

  /** A listener that reports another substate with an In is dropped from the list at once. */
  lemma InWithNewsUnregisters(p2p: bool, pruning: bool, id: id8)
    ensures var ready := Fresh(Listener, id, []).(sub := 2);
            var run := [Apply(RJoinIn, ready), Apply(RIn, ready.(sub := 3))];
            var o := Get(After(p2p, pruning, run[..1]).attribs, ListenerKey(id));
            && PossibleRun(run) && o.Some? && o.value.reg.state == IN
            && Get(After(p2p, pruning, run).attribs, ListenerKey(id)) == None
  {
    hide Step, Valid, Get, Handled, Acted;
    var ready := Fresh(Listener, id, []).(sub := 2);
    var next := ready.(sub := 3);
    TwoInputs(p2p, pruning, Apply(RJoinIn, ready), Apply(RIn, next));
    var db := Step(p2p, InitialDb(pruning), Apply(RJoinIn, ready));
    FirstRegistered(p2p, pruning, RJoinIn, ready);
    InWithNews(p2p, db, Calmed(Handled(p2p, ready, RJoinIn)), next);
  }

  /** The class a client declared stays listed but unregistered, and no client hears of it. */
  lemma InWithNewsIsSilent(p2p: bool, pruning: bool)
    ensures var own := Fresh(Domain, NoTalker.streamId, []).(domain := SrDomain(6, 3, 3, 2));
            var next := own.(domain := SrDomain(6, 3, 3, 3));
            var run := [Apply(Join, own), Apply(RIn, next)];
            var db := After(p2p, pruning, run[..1]);
            var o, p := Get(db.attribs, DomainKey(6)), Get(After(p2p, pruning, run).attribs, DomainKey(6));
            && PossibleRun(run) && o.Some? && o.value.reg.state == IN
            && p.Some? && p.value.reg.state == MT
            && Handled(p2p, Acted(db.attribs, next), RIn).reg.notify == NotifyNone
  {
    hide Step, Valid, Get, Handled, Acted;
    var own := Fresh(Domain, NoTalker.streamId, []).(domain := SrDomain(6, 3, 3, 2));
    var next := own.(domain := SrDomain(6, 3, 3, 3));
    TwoInputs(p2p, pruning, Apply(Join, own), Apply(RIn, next));
    FirstRegistered(p2p, pruning, Join, own);
    InWithNews(p2p, Step(p2p, InitialDb(pruning), Apply(Join, own)), Calmed(Handled(p2p, own, Join)), next);
  }

  lemma TwoInputs(p2p: bool, pruning: bool, x: Input, y: Input)
    ensures var run := [x, y];
            && After(p2p, pruning, run[..1]) == Step(p2p, InitialDb(pruning), x)
            && After(p2p, pruning, run) == Step(p2p, Step(p2p, InitialDb(pruning), x), y)
  {
    hide Step;
    var run := [x, y];
    assert run[..1] == [x] && [x][..0] == [];
  }

  /** What is merged in: only the parts that news can change, and only from the same direction. */
  lemma MergeTakesOver(s: seq<Attrib>, a: Attrib, r: Attrib)
    requires KeyOf(a) == KeyOf(r) && MsrpKind(a.kind)
    ensures var m := Merged(s, a, r);
            && m.app == a.app && m.declare == a.declare && m.reg.mac == r.reg.mac
            && m.talker == a.talker.(code := m.talker.code, bridge := m.talker.bridge)
            && m.domain == a.domain.(neighbor := m.domain.neighbor, vlan := m.domain.vlan)
            && (IsTalker(a.kind) && a.declare == r.declare ==>
                  m.kind == r.kind && m.talker.code == r.talker.code && m.talker.bridge == r.talker.bridge)
            && (a.kind == Listener && a.declare == r.declare && BringsNews(s, a, r) ==> m.sub == r.sub)
            && (a.kind == Domain && BringsNews(s, a, r) ==>
                  m.domain.neighbor == r.domain.priority && m.domain.vlan == r.domain.vlan)
            && (a.declare != r.declare && a.kind != Domain ==> m.talker == a.talker && m.sub == a.sub && m.kind == a.kind)
            && (!BringsNews(s, a, r) ==> m.sub == a.sub && m.kind == a.kind && m.domain == a.domain && m.reg.state == a.reg.state)
  {
    hide Has;
  }

  // ---------------------------------------------------------------- Pruning

  /** A talker nobody asked for changes nothing: not the list, not a timer. */
  lemma PrunedTalkerIgnored(p2p: bool, db: Db, e: Event, r: Attrib)
    requires Valid(db) && !Interested(db, r)
    ensures Step(p2p, db, Apply(e, r)) == db
  {
    hide Interested;
    QuietIsCalm(db);
  }

  predicate Wanted(db: Db, id: id8) {
    !db.pruning || id in db.interesting || Has(db.attribs, ListenerKey(id))
  }

  ghost predicate Holds(s: seq<Attrib>, key: Key) {
    exists i :: 0 <= i < |s| && KeyOf(s[i]) == key
  }

  lemma HoldsHas(s: seq<Attrib>, key: Key)
    ensures Has(s, key) <==> Holds(s, key)
  {
    hide KeyOf;
  }

  ghost predicate NoNewKeys(t: seq<Attrib>, s: seq<Attrib>) {
    forall i :: 0 <= i < |t| ==> Holds(s, KeyOf(t[i]))
  }

  lemma SameKeysNoNew(t: seq<Attrib>, s: seq<Attrib>)
    requires |t| == |s| && forall i :: 0 <= i < |s| ==> KeyOf(t[i]) == KeyOf(s[i])
    ensures NoNewKeys(t, s)
  {
    hide KeyOf;
  }

  lemma WithinNoNew(t: seq<Attrib>, s: seq<Attrib>, f: seq<nat>)
    requires Within(t, s, f)
    ensures NoNewKeys(t, s)
  {
    hide KeyOf;
    forall i | 0 <= i < |t| ensures Holds(s, KeyOf(t[i])) {
      assert KeyOf(s[f[i]]) == KeyOf(t[i]);
    }
  }

  lemma NoNewTrans(u: seq<Attrib>, t: seq<Attrib>, s: seq<Attrib>)
    requires NoNewKeys(u, t) && NoNewKeys(t, s)
    ensures NoNewKeys(u, s)
  {
    hide KeyOf;
  }

  lemma WalkNoNew(p2p: bool, s: seq<Attrib>, e: Event, kind: Option<Kind>)
    ensures NoNewKeys(WalkedAll(p2p, s, e, kind), s)
    ensures NoNewKeys(SettledAll(WalkedAll(p2p, s, e, kind)), s)
    ensures NoNewKeys(CalmedAll(SettledAll(WalkedAll(p2p, s, e, kind))), s)
    ensures NoNewKeys(CalmedAll(WalkedAll(p2p, s, e, kind)), s)
    ensures NoNewKeys(CalmedAll(s), s)
  {
    hide NextApplicant, Announcement, NextRegistrar, Notification, KeyOf, NoNewKeys;
    var w := WalkedAll(p2p, s, e, kind);
    forall i | 0 <= i < |s| ensures KeyOf(w[i]) == KeyOf(s[i]) {
      WalkedKey(p2p, s[i], e, kind);
    }
    forall t: seq<Attrib> | t in [s, w, SettledAll(w)] ensures forall i :: 0 <= i < |t| ==> KeyOf(CalmedAll(t)[i]) == KeyOf(t[i]) && KeyOf(SettledAll(t)[i]) == KeyOf(t[i]) {
      FlagsKey(t);
    }
    SameKeysNoNew(w, s);
    SameKeysNoNew(SettledAll(w), s);
    SameKeysNoNew(CalmedAll(SettledAll(w)), s);
    SameKeysNoNew(CalmedAll(w), s);
    SameKeysNoNew(CalmedAll(s), s);
  }

  lemma WalkedKey(p2p: bool, a: Attrib, e: Event, kind: Option<Kind>)
    ensures KeyOf(Walked(p2p, a, e, kind)) == KeyOf(a)
  {
    hide NextApplicant, Announcement, NextRegistrar, Notification;
  }

  lemma FlagsKey(s: seq<Attrib>)
    ensures forall i :: 0 <= i < |s| ==> KeyOf(CalmedAll(s)[i]) == KeyOf(s[i]) && KeyOf(SettledAll(s)[i]) == KeyOf(s[i])
  {
  }

  lemma LvTickNoNew(p2p: bool, s: seq<Attrib>)
    ensures NoNewKeys(CalmedAll(Kept(WalkedAll(p2p, s, LvTimer, None))), s)
  {
    hide NoNewKeys, WalkedAll, Kept, CalmedAll;
    var w := WalkedAll(p2p, s, LvTimer, None);
    WalkNoNew(p2p, s, LvTimer, None);
    var f := KeptWithin(w);
    WithinNoNew(Kept(w), w, f);
    NoNewTrans(Kept(w), w, s);
    WalkNoNew(p2p, Kept(w), LvTimer, None);
    NoNewTrans(CalmedAll(Kept(w)), Kept(w), s);
  }

  /** A value event brings in at most its own key, and a talker's only when it is wanted. */
  lemma ApplyNewKey(p2p: bool, db: Db, e: Event, r: Attrib, key: Key)
    requires Valid(db) && ValueEvent(e) && Arriving(r)
    requires Has(ApplyStep(p2p, db, e, r).attribs, key) && !Has(db.attribs, key)
    ensures key == KeyOf(r) && Interested(db, r)
  {
    hide KeyOf, Handled, Acted, Reclaimable, WithTarget, UniqueKeys, AllSettle, Interested, Arriving, CalmedAll, Touched;
    if !Interested(db, r) {
      QuietIsCalm(db);
    } else if !(e == RMt && !Has(db.attribs, KeyOf(r))) {
      ApplyPerKey(p2p, db, e, r, key);
    }
  }

  lemma InterestedWanted(db: Db, r: Attrib, id: id8)
    requires KeyOf(r) == TalkerKey(id) && Interested(db, r)
    ensures Wanted(db, id)
  {
  }

  /** Only a value event about a stream that is wanted at that moment brings its talker in. */
  lemma TalkerEntersWanted(p2p: bool, db: Db, input: Input, id: id8)
    requires Valid(db) && Possible(input)
    requires Has(Step(p2p, db, input).attribs, TalkerKey(id)) && !Has(db.attribs, TalkerKey(id))
    ensures Wanted(db, id)
  {
    hide UniqueKeys, AllSettle, Quiet, WalkedAll, SettledAll, CalmedAll, Kept, WithoutTalkers, ApplyStep, Find, Arriving, AnyLeaves, AnotherTxNeeded, Has, Interested, Wanted, NoNewKeys;
    var s, key := db.attribs, TalkerKey(id);
    match input
    case Apply(e, r) =>
      ApplyNewKey(p2p, db, e, r, key);
      InterestedWanted(db, r, id);
    case LeaveAllHeard(kind) =>
      WalkNoNew(p2p, s, RLa, Some(kind));
      NoNewHas(Step(p2p, db, input).attribs, s, key);
    case TxTick =>
      WalkNoNew(p2p, s, Tx, None);
      NoNewHas(Step(p2p, db, input).attribs, s, key);
    case LvTick =>
      LvTickNoNew(p2p, s);
      NoNewHas(Step(p2p, db, input).attribs, s, key);
    case LvaTick =>
      WalkNoNew(p2p, s, TxLa, None);
      NoNewHas(Step(p2p, db, input).attribs, s, key);
    case PeriodicTick =>
      WalkNoNew(p2p, s, Tx, None);
      NoNewHas(Step(p2p, db, input).attribs, s, key);
    case Reclaim =>
      var f := KeptWithin(s);
      WithinNoNew(Kept(s), s, f);
      NoNewHas(Kept(s), s, key);
    case Interest(_, _) => NoNewRefl(s, key);
    case Uninterest(other) =>
      var f := WithoutWithin(s, other);
      WithinNoNew(WithoutTalkers(s, other), s, f);
      NoNewHas(WithoutTalkers(s, other), s, key);
      NoNewRefl(s, key);
    case UninterestAll => NoNewRefl(s, key);
    case Withdraw(other, mac) => WithdrawNoTalker(p2p, db, other, mac, id);
  }

  lemma WithdrawNoTalker(p2p: bool, db: Db, other: id8, mac: seq<int>, id: id8)
    requires Valid(db) && !Has(db.attribs, TalkerKey(id))
    ensures !Has(Step(p2p, db, Withdraw(other, mac)).attribs, TalkerKey(id))
  {
    hide UniqueKeys, AllSettle, Quiet, WithoutTalkers, ApplyStep, Arriving, Has, Interested, NoNewKeys, Find;
    var s, key := db.attribs, TalkerKey(id);
    var r := WithdrawnListener(s, other, mac);
    WithdrawnArrives(s, other, mac);
    WithdrawnKey(s, other, mac);
    var left := ApplyStep(p2p, db, Lv, r);
    if Has(left.attribs, key) {
      ApplyNewKey(p2p, db, Lv, r, key);
      assert false;
    }
    var f := WithoutWithin(left.attribs, other);
    WithinNoNew(WithoutTalkers(left.attribs, other), left.attribs, f);
    if Has(WithoutTalkers(left.attribs, other), key) {
      NoNewHas(WithoutTalkers(left.attribs, other), left.attribs, key);
    }
  }

  lemma WithdrawnKey(s: seq<Attrib>, id: id8, mac: seq<int>)
    ensures KeyOf(WithdrawnListener(s, id, mac)) == ListenerKey(id)
  {
  }

  lemma NoNewHas(t: seq<Attrib>, s: seq<Attrib>, key: Key)
    requires NoNewKeys(t, s) && Has(t, key)
    ensures Has(s, key)
  {
    hide KeyOf;
    HoldsHas(t, key);
    HoldsHas(s, key);
    var i :| 0 <= i < |t| && KeyOf(t[i]) == key;
    assert Holds(s, KeyOf(t[i]));
  }

  lemma NoNewRefl(s: seq<Attrib>, key: Key)
    ensures NoNewKeys(s, s)
  {
    hide KeyOf;
  }

  /** With pruning on, every talker in the list was wanted at some earlier point of the run. */
  lemma {:induction false} EveryTalkerWasWanted(p2p: bool, run: seq<Input>, id: id8) returns (k: nat)
    requires PossibleRun(run) && Has(After(p2p, true, run).attribs, TalkerKey(id))
    ensures k < |run|
    ensures var past := After(p2p, true, run[..k]);
            id in past.interesting || Has(past.attribs, ListenerKey(id))
  {
    hide Step, Has, Possible;
    if run == [] {
      NothingHeld(p2p, TalkerKey(id));
      assert false;
    } else {
      var n := |run| - 1;
      var before := After(p2p, true, run[..n]);
      if Has(before.attribs, TalkerKey(id)) {
        k := EveryTalkerWasWanted(p2p, run[..n], id);
        assert run[..n][..k] == run[..k];
      } else {
        RunKeepsValid(p2p, true, run[..n]);
        assert Possible(run[n]);
        TalkerEntersWanted(p2p, before, run[n], id);
        PruningStays(p2p, true, run[..n]);
        k := n;
      }
    }
  }

  lemma NothingHeld(p2p: bool, key: Key)
    ensures !Has(After(p2p, true, []).attribs, key)
  {
  }

  lemma {:induction false} PruningStays(p2p: bool, pruning: bool, run: seq<Input>)
    ensures After(p2p, pruning, run).pruning == pruning
  {
    if run != [] {
      hide ApplyStep, WalkedAll, SettledAll, CalmedAll, Kept, WithoutTalkers, Has, WithdrawnListener;
      PruningStays(p2p, pruning, run[..|run| - 1]);
      StepPruning(p2p, After(p2p, pruning, run[..|run| - 1]), run[|run| - 1]);
    }
  }

  lemma StepPruning(p2p: bool, db: Db, input: Input)
    ensures Step(p2p, db, input).pruning == db.pruning
  {
    hide WithTarget, Touched, WalkedAll, SettledAll, CalmedAll, Kept, WithoutTalkers, Has, WithdrawnListener, Interested;
  }

  /** Once nobody wants a stream, the commands I-S and S-L take its talkers out. */
  lemma UnwantedTalkersRemoved(p2p: bool, db: Db, id: id8, mac: seq<int>)
    requires db.pruning
    ensures id in db.interesting && !Has(db.attribs, ListenerKey(id)) ==>
              !Has(Step(p2p, db, Uninterest(id)).attribs, TalkerKey(id))
    ensures id !in db.interesting ==> !Has(Step(p2p, db, Withdraw(id, mac)).attribs, TalkerKey(id))
  {
    hide WithoutTalkers, Has, WithdrawnListener, ApplyStep;
    NoTalkersLeft(db.attribs, id);
    var left := ApplyStep(p2p, db, Lv, WithdrawnListener(db.attribs, id, mac));
    NoTalkersLeft(left.attribs, id);
    ApplyPruning(p2p, db, Lv, WithdrawnListener(db.attribs, id, mac));
  }

  lemma NoTalkersLeft(s: seq<Attrib>, id: id8)
    ensures !Has(WithoutTalkers(s, id), TalkerKey(id))
  {
    var f := WithoutWithin(s, id);
  }

  lemma ApplyPruning(p2p: bool, db: Db, e: Event, r: Attrib)
    ensures ApplyStep(p2p, db, e, r).pruning == db.pruning && ApplyStep(p2p, db, e, r).interesting == db.interesting
  {
    hide WithTarget, Touched, CalmedAll, Has, Interested;
  }
}
