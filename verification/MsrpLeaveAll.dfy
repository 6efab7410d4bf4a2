/**
  MSRP LeaveAll between two stations. A LeaveAll frame carries one LeaveAll per attribute type,
  before that type's values, and the receiver applies each to its attributes of that type only.
 */
module MsrpLeaveAll {
  import opened Mrp
  import opened Mrpdu
  import opened MrpduParse
  import opened Emission
  import opened EmissionMeaning
  import opened EmissionFits
  import Mvrp
  import opened Msrp
  import opened MsrpRuns
  import opened MsrpKeys
  import opened MsrpWire
  import opened MsrpFrames
  import opened MsrpStations
  import opened MsrpDeclared
  import MvrpStations

  // ---------------------------------------------------------------- A LeaveAll, one key at a time

  /** The same attribute but for its machines. */
  predicate Like(o: Option<Attrib>, p: Option<Attrib>) {
    && (o.Some? <==> p.Some?)
    && (o.Some? ==>
          && p.value.kind == o.value.kind && p.value.talker == o.value.talker && p.value.domain == o.value.domain
          && p.value.sub == o.value.sub && p.value.declare == o.value.declare)
  }

  /** The registrar of `o`, leaving if it was registered and `leaves` holds. */
  predicate RegistrarThen(o: Option<Attrib>, p: Option<Attrib>, leaves: bool) {
    o.Some? && p.Some? ==> p.value.reg.state == if o.value.reg.state == IN && leaves then LV else o.value.reg.state
  }

  lemma WalkedLike(p2p: bool, a: Attrib, kind: Kind)
    ensures var w := Calmed(Walked(p2p, a, RLa, Some(kind)));
            Like(Some(a), Some(w)) && RegistrarThen(Some(a), Some(w), a.kind == kind) && KeyOf(w) == KeyOf(a)
  {
    hide NextApplicant, Announcement;
  }

  lemma LeaveAllPerKey(p2p: bool, db: Db, kind: Kind, key: Key)
    requires Valid(db) && MsrpKind(kind)
    ensures var after := Step(p2p, db, LeaveAllHeard(kind));
            var o, p := Get(db.attribs, key), Get(after.attribs, key);
            && Valid(after) && after.pruning == db.pruning && after.interesting == db.interesting
            && Like(o, p) && RegistrarThen(o, p, o.Some? && o.value.kind == kind)
  {
    hide Valid, KeyOf, Walked, UniqueKeys, Find;
    StepKeeps(p2p, db, LeaveAllHeard(kind));
    ValidUnique(db);
    var s := db.attribs;
    var t := CalmedAll(WalkedAll(p2p, s, RLa, Some(kind)));
    forall i | 0 <= i < |s|
      ensures t[i] == Calmed(Walked(p2p, s[i], RLa, Some(kind))) && KeyOf(t[i]) == KeyOf(s[i])
    {
      WalkedLike(p2p, s[i], kind);
    }
    GetMapped(s, t, key);
    var k := Find(s, key);
    if Get(s, key).Some? {
      WalkedLike(p2p, s[k], kind);
    }
  }

  lemma ValidUnique(db: Db)
    requires Valid(db)
    ensures UniqueKeys(db.attribs)
  {
  }

  // ---------------------------------------------------------------- Events that are not about a key

  ghost predicate NotAbout(ds: seq<Dispatch>, key: Key) {
    forall i :: 0 <= i < |ds| ==> if ds[i].LeaveAll? then MsrpKind(ds[i].kind) else Sound(ds[i]) && KeyHeard(ds[i]) != key
  }

  /** What events about other keys, and LeaveAlls among them, do to an attribute. */
  lemma {:induction false} FeedAround(p2p: bool, db: Db, ds: seq<Dispatch>, source: seq<byte>, key: Key)
    requires Valid(db) && NotAbout(ds, key)
    ensures var after := Feed(p2p, db, ds, source);
            var o, p := Get(db.attribs, key), Get(after.attribs, key);
            && Valid(after) && after.pruning == db.pruning && after.interesting == db.interesting
            && Like(o, p) && RegistrarThen(o, p, o.Some? && LeaveAll(o.value.kind) in ds)
  {
    hide Step, Get, Valid, Sound, KeyHeard;
    if ds != [] {
      var n := |ds| - 1;
      var before, d := Feed(p2p, db, ds[..n], source), ds[n];
      FeedAround(p2p, db, ds[..n], source, key);
      assert ds == ds[..n] + [d];
      if d.LeaveAll? {
        LeaveAllPerKey(p2p, before, d.kind, key);
      } else {
        ValueStep(p2p, before, d, source, key);
      }
    }
  }

  // ---------------------------------------------------------------- Which types a stretch of events is about

  ghost predicate FromType(s: seq<Attrib>, d: Dispatch, k: nat)
    requires k < 4
  {
    if d.LeaveAll? then d.kind == Order[k]
    else Sound(d) && exists i :: 0 <= i < |s| && s[i].kind == Order[k] && Says(d, s[i])
  }

  ghost predicate FromTypes(s: seq<Attrib>, ds: seq<Dispatch>, lo: nat, hi: nat) {
    hi <= 4 && forall x :: 0 <= x < |ds| ==> FromOneOf(s, ds[x], lo, hi)
  }

  ghost predicate FromOneOf(s: seq<Attrib>, d: Dispatch, lo: nat, hi: nat)
    requires hi <= 4
  {
    exists k :: lo <= k < hi && FromType(s, d, k)
  }

  lemma FromWider(s: seq<Attrib>, d: Dispatch, lo: nat, hi: nat, lo': nat, hi': nat)
    requires hi <= 4 && FromOneOf(s, d, lo, hi) && lo' <= lo && hi <= hi' <= 4
    ensures FromOneOf(s, d, lo', hi')
  {
    hide FromType;
    var k :| lo <= k < hi && FromType(s, d, k);
    assert FromType(s, d, k);
  }

  lemma FromConcat(s: seq<Attrib>, a: seq<Dispatch>, b: seq<Dispatch>, lo: nat, mid: nat, hi: nat)
    requires FromTypes(s, a, lo, mid) && FromTypes(s, b, mid, hi) && lo <= mid <= hi
    ensures FromTypes(s, a + b, lo, hi)
  {
    hide FromOneOf;
    forall x | 0 <= x < |a + b| ensures FromOneOf(s, (a + b)[x], lo, hi) {
      if x < |a| {
        FromWider(s, a[x], lo, mid, lo, hi);
      } else {
        FromWider(s, b[x - |a|], mid, hi, lo, hi);
      }
    }
  }

  lemma SpokenParts(kind: Kind, s: seq<Attrib>, stop: nat)
    requires MsrpKind(kind) && CanSpeak(kind, s, stop)
    ensures Spoken(kind, s, stop, true) == [LeaveAll(kind)] + Spoken(kind, s, stop, false)
  {
    hide SentIndices, ValuesOf;
  }

  lemma ValuesFrom(s: seq<Attrib>, k: nat, stop: nat)
    requires k < 4 && CleanList(s) && CanSpeak(Order[k], s, stop)
    ensures FromTypes(s, Spoken(Order[k], s, stop, false), k, k + 1)
    ensures forall x :: 0 <= x < |Spoken(Order[k], s, stop, false)| ==> Sound(Spoken(Order[k], s, stop, false)[x])
  {
    hide Spoken, CanSpeak, CleanList, Says, Sound;
    OrderMsrp(k);
    CanSpeakFacts(Order[k], s, stop);
    var ds := Spoken(Order[k], s, stop, false);
    forall x | 0 <= x < |ds| ensures Sound(ds[x]) && FromOneOf(s, ds[x], k, k + 1) {
      var i := OneKind(Order[k], s, stop, x);
      SoundValue(ds[x]);
      assert s[i].kind == Order[k] && Says(ds[x], s[i]);
      assert FromType(s, ds[x], k);
    }
  }

  lemma CanSpeakFacts(kind: Kind, s: seq<Attrib>, stop: nat)
    requires MsrpKind(kind) && CanSpeak(kind, s, stop)
    ensures stop <= |s| && Sent(kind, ItemsOf(kind, s), SentIndices(kind, ItemsOf(kind, s), 0, stop))
  {
  }

  lemma SoundValue(d: Dispatch)
    requires Sound(d)
    ensures d.Value?
  {
  }

  lemma TypeFrom(s: seq<Attrib>, k: nat, stop: nat)
    requires k < 4 && CleanList(s) && CanSpeak(Order[k], s, stop)
    ensures FromTypes(s, Spoken(Order[k], s, stop, true), k, k + 1)
    ensures LeaveAll(Order[k]) in Spoken(Order[k], s, stop, true)
  {
    hide Spoken, CleanList;
    OrderMsrp(k);
    CanSpeakFacts(Order[k], s, stop);
    ValuesFrom(s, k, stop);
    SpokenParts(Order[k], s, stop);
    var ds := Spoken(Order[k], s, stop, true);
    assert ds[0] == LeaveAll(Order[k]) && FromType(s, ds[0], k);
    forall x | 0 <= x < |ds| ensures FromOneOf(s, ds[x], k, k + 1) {
      if x > 0 {
        assert ds[x] == Spoken(Order[k], s, stop, false)[x - 1];
      }
    }
  }

  lemma {:induction false} FrontFrom(s: seq<Attrib>, stops: seq<nat>)
    requires CleanList(s) && CanSpeakAll(s, stops)
    ensures FromTypes(s, SpokenAll(s, stops, true), 0, |stops|)
  {
    hide Spoken, CleanList, CanSpeak, FromTypes;
    if stops == [] {
      NothingFrom(s);
    } else {
      var n := |stops| - 1;
      FrontFrom(s, stops[..n]);
      assert CanSpeak(Order[n], s, stops[n]);
      OrderMsrp(n);
      CanSpeakFacts(Order[n], s, stops[n]);
      TypeFrom(s, n, stops[n]);
      FromConcat(s, SpokenAll(s, stops[..n], true), Spoken(Order[n], s, stops[n], true), 0, n, n + 1);
    }
  }

  lemma NothingFrom(s: seq<Attrib>)
    ensures FromTypes(s, [], 0, 0)
  {
  }

  /** What the types from the k-th on put on the wire. */
  ghost function SpokenFrom(s: seq<Attrib>, stops: seq<nat>, k: nat): seq<Dispatch>
    requires k <= |stops| && CanSpeakAll(s, stops)
    decreases |stops| - k
  {
    if k == |stops| then [] else Spoken(Order[k], s, stops[k], true) + SpokenFrom(s, stops, k + 1)
  }

  lemma {:induction false} SpokenSplit(s: seq<Attrib>, stops: seq<nat>, k: nat)
    requires k <= |stops| && CanSpeakAll(s, stops)
    ensures CanSpeakAll(s, stops[..k])
    ensures SpokenAll(s, stops, true) == SpokenAll(s, stops[..k], true) + SpokenFrom(s, stops, k)
    decreases |stops| - k
  {
    hide Spoken, CanSpeak;
    if k == |stops| {
      assert stops[..k] == stops;
    } else {
      SpokenSplit(s, stops, k + 1);
      assert stops[..k + 1][..k] == stops[..k];
    }
  }

  lemma {:induction false} TailFrom(s: seq<Attrib>, stops: seq<nat>, k: nat)
    requires k <= |stops| == 4 && CleanList(s) && CanSpeakAll(s, stops)
    ensures FromTypes(s, SpokenFrom(s, stops, k), k, 4)
    ensures forall c :: k <= c < 4 ==> LeaveAll(Order[c]) in SpokenFrom(s, stops, k)
    decreases |stops| - k
  {
    hide Spoken, CleanList, CanSpeak, FromOneOf;
    if k < 4 {
      assert CanSpeak(Order[k], s, stops[k]);
      OrderMsrp(k);
      CanSpeakFacts(Order[k], s, stops[k]);
      TailFrom(s, stops, k + 1);
      TypeFrom(s, k, stops[k]);
      FromConcat(s, Spoken(Order[k], s, stops[k], true), SpokenFrom(s, stops, k + 1), k, k + 1, 4);
    }
  }

  /** Events of other types than an attribute's are not about its key. */
  lemma OtherTypes(s: seq<Attrib>, ds: seq<Dispatch>, lo: nat, hi: nat, j: nat)
    requires UniqueKeys(s) && FromTypes(s, ds, lo, hi) && j < |s| && MsrpKind(s[j].kind)
    requires !(lo <= OrderOf(s[j].kind) < hi)
    ensures NotAbout(ds, KeyOf(s[j]))
    ensures LeaveAll(s[j].kind) !in ds
  {
    hide KeyOf, KeyHeard, Sound, Says;
    forall x | 0 <= x < |ds|
      ensures if ds[x].LeaveAll? then MsrpKind(ds[x].kind) && ds[x].kind != s[j].kind
              else Sound(ds[x]) && KeyHeard(ds[x]) != KeyOf(s[j])
    {
      assert FromOneOf(s, ds[x], lo, hi);
      var k :| lo <= k < hi && FromType(s, ds[x], k);
      OrderMsrp(k);
      OrdersDiffer(k, OrderOf(s[j].kind));
      if ds[x].Value? {
        var i :| 0 <= i < |s| && s[i].kind == Order[k] && Says(ds[x], s[i]);
        SaysKey(ds[x], s[i]);
        DistinctKeys(s, i, j);
      }
    }
  }

  lemma OrdersDiffer(k: nat, m: nat)
    requires k < 4 && m < 4 && k != m
    ensures Order[k] != Order[m]
  {
  }

  lemma DistinctKeys(s: seq<Attrib>, i: nat, j: nat)
    requires UniqueKeys(s) && i < |s| && j < |s| && i != j
    ensures KeyOf(s[i]) != KeyOf(s[j])
  {
    hide KeyOf;
    if i < j {
      assert KeyOf(s[i]) != KeyOf(s[j]);
    } else {
      assert KeyOf(s[j]) != KeyOf(s[i]);
    }
  }

  /** Of the values of its own type, exactly one is about an announced attribute. */
  lemma OwnType(s: seq<Attrib>, k: nat, stop: nat, x: nat, j: nat)
    requires k < 4 && CleanList(s) && UniqueKeys(s) && CanSpeak(Order[k], s, stop) && j < |s|
    requires x < |Spoken(Order[k], s, stop, false)|
    requires var d := Spoken(Order[k], s, stop, false)[x]; Sound(d) && KeyHeard(d) == KeyOf(s[j])
    ensures var ds := Spoken(Order[k], s, stop, false);
            && NotAbout(ds[..x], KeyOf(s[j])) && NotAbout(ds[x + 1..], KeyOf(s[j]))
            && (forall c: Kind :: LeaveAll(c) !in ds)
  {
    hide Spoken, CanSpeak, CleanList, Says, Sound, KeyOf, KeyHeard;
    OrderMsrp(k);
    CanSpeakFacts(Order[k], s, stop);
    ValuesFrom(s, k, stop);
    var ds := Spoken(Order[k], s, stop, false);
    forall y | 0 <= y < |ds| ensures ds[y].Value? && Sound(ds[y]) && (y != x ==> KeyHeard(ds[y]) != KeyHeard(ds[x])) {
      SoundValue(ds[y]);
      if y != x {
        var i, i' := OneKindApart(Order[k], s, stop, if x < y then x else y, if x < y then y else x);
        SaysKey(ds[if x < y then x else y], s[i]);
        SaysKey(ds[if x < y then y else x], s[i']);
        DistinctKeys(s, i, i');
      }
    }
  }

  // ---------------------------------------------------------------- Two stations

  /** B holds A's advertised stream as its own Talker Failed declaration. */
  predicate HeldAsFailed(o: Option<Attrib>, a: Attrib) {
    a.kind == TalkerAdv && o.Some? && o.value.kind == TalkerFailed && o.value.declare
  }

  lemma RegisteredKind(o: Option<Attrib>, p: Option<Attrib>, p2p: bool, db: Db, d: Dispatch, source: seq<byte>)
    requires Valid(db) && Sound(d) && d.ev in {EV_NEW, EV_JOININ, EV_JOINMT}
    requires IsTalker(d.kind) ==> Wanted(db, Heard(d, []).talker.streamId)
    requires o == Get(db.attribs, KeyHeard(d))
    requires p == Get(Step(p2p, db, InputOf(d, source)).attribs, KeyHeard(d))
    ensures p.Some? && p.value.reg.state == IN
    ensures p.value.kind == if IsTalker(d.kind) && o.Some? && o.value.declare then o.value.kind else d.kind
    ensures MsrpKind(d.kind)
  {
    hide Heard, KeyOf, Get, ApplyStep, Valid, Arriving, Handled, Acted, NextApplicant, Announcement;
    var r, e := Heard(d, source), MvrpStations.RxEvent(d.ev);
    AnnouncedStep(p2p, db, d, source);
    HeardArrives(d, source);
    HeardSameKey(d, source);
    HeardParts(d, source);
    HeardDeclare(d, source);
    WantedInterested(db, r);
    ApplyPerKey(p2p, db, e, r, KeyOf(r));
    HandledJoin(p2p, Acted(db.attribs, r), e);
    ValidKinds(db);
    ActedKind(db.attribs, r);
  }

  lemma ValidKinds(db: Db)
    requires Valid(db)
    ensures forall i :: 0 <= i < |db.attribs| ==> MsrpKind(db.attribs[i].kind)
  {
    forall i | 0 <= i < |db.attribs| ensures MsrpKind(db.attribs[i].kind) {
      assert Settles(db.attribs[i], db.lv);
    }
  }

  lemma HeardDeclare(d: Dispatch, source: seq<byte>)
    requires Sound(d)
    ensures !Heard(d, source).declare
  {
    hide HeardTalker;
  }

  lemma ActedKind(s: seq<Attrib>, r: Attrib)
    requires !r.declare && MsrpKind(r.kind) && forall i :: 0 <= i < |s| ==> MsrpKind(s[i].kind)
    ensures var o := Get(s, KeyOf(r));
            Acted(s, r).kind == if IsTalker(r.kind) && o.Some? && o.value.declare then o.value.kind else r.kind
  {
    hide Has;
  }

  /** The events before the value, the value, the events after it. */
  lemma Cut(s: seq<Attrib>, stops: seq<nat>, m: nat, x: nat)
    requires m < |stops| == 4 && CanSpeakAll(s, stops) && x < |Spoken(Order[m], s, stops[m], false)|
    ensures var ds := Spoken(Order[m], s, stops[m], false);
            && CanSpeakAll(s, stops[..m])
            && SpokenAll(s, stops, true)
               == (SpokenAll(s, stops[..m], true) + [LeaveAll(Order[m])] + ds[..x]) + [ds[x]]
                  + (ds[x + 1..] + SpokenFrom(s, stops, m + 1))
  {
    hide Spoken, CanSpeak, SpokenAll;
    OrderMsrp(m);
    assert CanSpeak(Order[m], s, stops[m]);
    CanSpeakFacts(Order[m], s, stops[m]);
    SpokenSplit(s, stops, m);
    SpokenParts(Order[m], s, stops[m]);
    CutAt(SpokenAll(s, stops[..m], true), [LeaveAll(Order[m])], Spoken(Order[m], s, stops[m], false), SpokenFrom(s, stops, m + 1), x);
  }

  lemma CutAt(front: seq<Dispatch>, la: seq<Dispatch>, ds: seq<Dispatch>, tail: seq<Dispatch>, x: nat)
    requires x < |ds|
    ensures front + ((la + ds) + tail) == (front + la + ds[..x]) + [ds[x]] + (ds[x + 1..] + tail)
  {
    assert ds == ds[..x] + [ds[x]] + ds[x + 1..];
  }

  lemma NotAboutConcat(a: seq<Dispatch>, b: seq<Dispatch>, key: Key)
    requires NotAbout(a, key) && NotAbout(b, key)
    ensures NotAbout(a + b, key)
  {
    hide Sound, KeyHeard;
  }

  lemma LeaveAllNotAbout(kind: Kind, key: Key)
    requires MsrpKind(kind)
    ensures NotAbout([LeaveAll(kind)], key)
  {
  }

  lemma WantedAround(p2p: bool, db: Db, ds: seq<Dispatch>, source: seq<byte>, id: id8)
    requires Valid(db) && NotAbout(ds, ListenerKey(id)) && Wanted(db, id)
    ensures Wanted(Feed(p2p, db, ds, source), id)
  {
    hide Feed, Valid, NotAbout, Find;
    FeedAround(p2p, db, ds, source, ListenerKey(id));
  }

  /** Before a talker's value come only talkers' values and LeaveAlls. */
  lemma TalkersBefore(s: seq<Attrib>, ds: seq<Dispatch>, hi: nat, id: id8)
    requires FromTypes(s, ds, 0, hi) && hi <= 2
    ensures NotAbout(ds, ListenerKey(id))
  {
    hide Sound, Says, KeyHeard, KeyOf;
    forall x | 0 <= x < |ds| ensures if ds[x].LeaveAll? then MsrpKind(ds[x].kind) else Sound(ds[x]) && KeyHeard(ds[x]) != ListenerKey(id) {
      assert FromOneOf(s, ds[x], 0, hi);
      var k :| 0 <= k < hi && FromType(s, ds[x], k);
      OrderMsrp(k);
      if ds[x].Value? {
        var i :| 0 <= i < |s| && s[i].kind == Order[k] && Says(ds[x], s[i]);
        SaysKey(ds[x], s[i]);
        TalkerKeyHeard(ds[x]);
      }
    }
  }

  /** What one announcement comes to, amid a LeaveAll frame's other events. */
  lemma AmidLeaveAll(p2p: bool, b: Db, before: seq<Dispatch>, d: Dispatch, after: seq<Dispatch>, source: seq<byte>)
    requires Valid(b) && Sound(d) && d.ev in {EV_NEW, EV_JOININ, EV_JOINMT}
    requires NotAbout(before, KeyHeard(d)) && NotAbout(after, KeyHeard(d))
    requires IsTalker(d.kind) ==> Wanted(Feed(p2p, b, before, source), Heard(d, []).talker.streamId)
    ensures var o := Get(b.attribs, KeyHeard(d));
            var kind := if IsTalker(d.kind) && o.Some? && o.value.declare then o.value.kind else d.kind;
            var end := Feed(p2p, b, before + [d] + after, source);
            var p := Get(end.attribs, KeyHeard(d));
            && Valid(end) && p.Some? && p.value.kind == kind
            && p.value.reg.state == if LeaveAll(kind) in after then LV else IN
  {
    hide Feed, Valid, NotAbout, Get, Sound, Heard, KeyHeard, Wanted, InputOf, Step;
    var key := KeyHeard(d);
    var mid := Feed(p2p, b, before, source);
    FeedAfter(p2p, b, before + [d], after, source);
    FeedAfter(p2p, b, before, [d], source);
    FeedOne(p2p, mid, d, source);
    FeedAround(p2p, b, before, source, key);
    var next := Step(p2p, mid, InputOf(d, source));
    RegisteredKind(Get(mid.attribs, key), Get(next.attribs, key), p2p, mid, d, source);
    AnnouncedStep(p2p, mid, d, source);
    FeedAround(p2p, next, after, source, key);
  }

  /** The frame around an announced attribute's value. */
  lemma FrameAround(s: seq<Attrib>, stops: seq<nat>, j: nat, x: nat) returns (before: seq<Dispatch>, after: seq<Dispatch>)
    requires CleanList(s) && UniqueKeys(s) && |stops| == 4 && CanSpeakAll(s, stops) && j < |s| && MsrpKind(s[j].kind)
    requires var m := OrderOf(s[j].kind);
             && CanSpeak(Order[m], s, stops[m]) && x < |Spoken(Order[m], s, stops[m], false)|
             && var d := Spoken(Order[m], s, stops[m], false)[x];
             Sound(d) && KeyHeard(d) == KeyOf(s[j])
    ensures var m := OrderOf(s[j].kind);
            var d := Spoken(Order[m], s, stops[m], false)[x];
            && SpokenAll(s, stops, true) == before + [d] + after
            && NotAbout(before, KeyOf(s[j])) && NotAbout(after, KeyOf(s[j]))
            && FromTypes(s, before, 0, m + 1) && FromTypes(s, after, m, 4)
            && (forall c: Kind :: MsrpKind(c) ==> (LeaveAll(c) in after <==> OrderOf(c) > m))
  {
    hide Spoken, CanSpeak, CleanList, Sound, KeyOf, KeyHeard, SpokenAll, NotAbout, FromTypes, SpokenFrom;
    var m := OrderOf(s[j].kind);
    OrderMsrp(m);
    CanSpeakFacts(Order[m], s, stops[m]);
    var ds := Spoken(Order[m], s, stops[m], false);
    Cut(s, stops, m, x);
    var front := SpokenAll(s, stops[..m], true);
    var tail := SpokenFrom(s, stops, m + 1);
    before := front + [LeaveAll(Order[m])] + ds[..x];
    after := ds[x + 1..] + tail;
    FrontFrom(s, stops[..m]);
    TailFrom(s, stops, m + 1);
    OtherTypes(s, front, 0, m, j);
    OtherTypes(s, tail, m + 1, 4, j);
    OwnType(s, m, stops[m], x, j);
    LeaveAllNotAbout(Order[m], KeyOf(s[j]));
    NotAboutConcat(front, [LeaveAll(Order[m])], KeyOf(s[j]));
    NotAboutConcat(front + [LeaveAll(Order[m])], ds[..x], KeyOf(s[j]));
    NotAboutConcat(ds[x + 1..], tail, KeyOf(s[j]));
    OwnFrom(s, m, stops[m], x);
    FromConcat(s, front, [LeaveAll(Order[m])] + ds[..x], 0, m, m + 1);
    RestFrom(s, m, stops[m], x + 1);
    FromConcat(s, ds[x + 1..], tail, m, m + 1, 4);
    assert before == front + ([LeaveAll(Order[m])] + ds[..x]);
    forall c: Kind | MsrpKind(c) ensures LeaveAll(c) in after <==> OrderOf(c) > m {
      assert LeaveAll(c) in after <==> LeaveAll(c) in tail;
      TailLeaveAlls(s, tail, m + 1, c);
    }
  }

  lemma OwnFrom(s: seq<Attrib>, k: nat, stop: nat, x: nat)
    requires k < 4 && CleanList(s) && CanSpeak(Order[k], s, stop) && x <= |Spoken(Order[k], s, stop, false)|
    ensures FromTypes(s, [LeaveAll(Order[k])] + Spoken(Order[k], s, stop, false)[..x], k, k + 1)
  {
    hide Spoken, CleanList;
    OrderMsrp(k);
    CanSpeakFacts(Order[k], s, stop);
    ValuesFrom(s, k, stop);
    var ds := [LeaveAll(Order[k])] + Spoken(Order[k], s, stop, false)[..x];
    assert FromType(s, ds[0], k);
    forall y | 0 <= y < |ds| ensures FromOneOf(s, ds[y], k, k + 1) {
      if y > 0 {
        assert ds[y] == Spoken(Order[k], s, stop, false)[y - 1];
      }
    }
  }

  lemma RestFrom(s: seq<Attrib>, k: nat, stop: nat, x: nat)
    requires k < 4 && CleanList(s) && CanSpeak(Order[k], s, stop) && x <= |Spoken(Order[k], s, stop, false)|
    ensures FromTypes(s, Spoken(Order[k], s, stop, false)[x..], k, k + 1)
  {
    hide Spoken, CleanList, FromOneOf;
    OrderMsrp(k);
    CanSpeakFacts(Order[k], s, stop);
    ValuesFrom(s, k, stop);
  }

  lemma TailLeaveAlls(s: seq<Attrib>, tail: seq<Dispatch>, lo: nat, c: Kind)
    requires FromTypes(s, tail, lo, 4) && MsrpKind(c)
    requires forall k :: lo <= k < 4 ==> LeaveAll(Order[k]) in tail
    ensures LeaveAll(c) in tail <==> OrderOf(c) >= lo
  {
    if OrderOf(c) >= lo {
      assert LeaveAll(Order[OrderOf(c)]) in tail;
    }
    if LeaveAll(c) in tail {
      var x :| 0 <= x < |tail| && tail[x] == LeaveAll(c);
      assert FromOneOf(s, tail[x], lo, 4);
    }
  }

  /** The value of an announced attribute has a place among its type's values. */
  lemma AnnouncedPlace(s: seq<Attrib>, stops: seq<nat>, j: nat) returns (x: nat)
    requires CleanList(s) && |stops| == 4 && CanSpeakAll(s, stops) && j < |s| && MsrpKind(s[j].kind) && MustSend(s[j])
    requires j < stops[OrderOf(s[j].kind)] && CanSpeak(s[j].kind, s, stops[OrderOf(s[j].kind)])
    ensures var ds := Spoken(s[j].kind, s, stops[OrderOf(s[j].kind)], false);
            x < |ds| && Sound(ds[x]) && Says(ds[x], s[j])
  {
    hide SentIndices, ValuesOf, Sent, Says, Sound, CleanList, KeyBytes;
    var kind := s[j].kind;
    var stop := stops[OrderOf(kind)];
    var items := ItemsOf(kind, s);
    assert Leads(items[j]);
    SentExactly(kind, items, 0, stop);
    var d := ValuePresent(kind, s, SentIndices(kind, items, 0, stop), j);
    var ds := Spoken(kind, s, stop, false);
    assert ds == ValuesOf(kind, items, SentIndices(kind, items, 0, stop));
    var i :| 0 <= i < |ds| && ds[i] == d;
    x := i;
  }

  /** An announced attribute in a LeaveAll frame, for any list of the sender. */
  lemma FrameLeavesAll(p2p: bool, station: Mvrp.mac, s: seq<Attrib>, b: Db, j: nat)
    requires UniqueKeys(s) && CleanList(s) && Valid(b) && FrameHoldsAll(station, s, true)
    requires j < |s| && MsrpKind(s[j].kind) && Announces(s[j])
    requires IsTalker(s[j].kind) ==> Wanted(b, s[j].talker.streamId)
    ensures var o := Get(b.attribs, KeyOf(s[j]));
            var after := Deliver(p2p, b, TxPdu(station, s, true, true).value);
            var p := Get(after.attribs, KeyOf(s[j]));
            && Valid(after) && p.Some?
            && p.value.reg.state == if HeldAsFailed(o, s[j]) then LV else IN
  {
    hide TxPdu, ReceiveFrame, BuildAll, SpokenAll, Feed, CleanList, UniqueKeys, Valid, Get, KeyOf, CanSpeakAll, CanSpeak, Heard, MustSend, Spoken, Sound, Says, AllSent, NotAbout, FromTypes, KeyHeard, Wanted;
    var frame := TxPdu(station, s, true, true).value;
    var source := if |frame| >= 12 then frame[6..12] else [];
    FrameRoundTrip(station, s, true);
    var stops := BuildAll(s, true, true).stops;
    AllSentReaches(s, stops, j);
    var kind := s[j].kind;
    var m := OrderOf(kind);
    SpeakAt(s, stops, m);
    var x := AnnouncedPlace(s, stops, j);
    CanSpeakFacts(kind, s, stops[m]);
    var d := Spoken(kind, s, stops[m], false)[x];
    SaysKey(d, s[j]);
    SaysTalker(d, s[j]);
    var before, after := FrameAround(s, stops, j, x);
    if IsTalker(kind) {
      TalkersBefore(s, before, m + 1, s[j].talker.streamId);
      WantedAround(p2p, b, before, source, s[j].talker.streamId);
    }
    AmidLeaveAll(p2p, b, before, d, after, source);
    HeldKinds(b, s[j]);
  }

  lemma SpeakAt(s: seq<Attrib>, stops: seq<nat>, m: nat)
    requires m < |stops| && CanSpeakAll(s, stops)
    ensures CanSpeak(Order[m], s, stops[m])
  {
  }

  /** B holds a key under the sender's type, or a stream under the other talker type. */
  lemma HeldKinds(b: Db, a: Attrib)
    requires Valid(b) && MsrpKind(a.kind)
    ensures var o := Get(b.attribs, KeyOf(a));
            o.Some? ==> MsrpKind(o.value.kind) && (if IsTalker(a.kind) then IsTalker(o.value.kind) else o.value.kind == a.kind)
  {
    ValidKinds(b);
  }

  lemma TxLaAnnounces(p2p: bool, a: Attrib)
    requires a.app.state in {VN, AN, AA, QA, AP, QP} && !(a.kind == Listener && a.sub == 0)
    ensures var w := Walked(p2p, a, TxLa, None);
            Announces(w) && KeyOf(w) == KeyOf(a) && w.kind == a.kind && w.talker == a.talker
  {
  }

  /** What A has in its list when a LeaveAll goes out. */
  lemma SenderList(p2p: bool, a: Db)
    requires Valid(a)
    ensures var s := WalkedAll(p2p, a.attribs, TxLa, None);
            && UniqueKeys(s) && CleanList(s) && (forall i :: 0 <= i < |s| ==> KeyOf(s[i]) == KeyOf(a.attribs[i]))
  {
    hide Walked, KeyOf, AnyLeaves, UniqueKeys;
    WalkKeeps(p2p, a.attribs, TxLa, None, a.lv, a.lv || AnyLeaves(a.attribs, TxLa, None));
    SettledListClean(WalkedAll(p2p, a.attribs, TxLa, None), a.lv || AnyLeaves(a.attribs, TxLa, None));
    forall i | 0 <= i < |a.attribs| ensures KeyOf(WalkedAll(p2p, a.attribs, TxLa, None)[i]) == KeyOf(a.attribs[i]) {
      WalkedKey(p2p, a.attribs[i], TxLa, None);
    }
  }

  /**
    Delivering A's LeaveAll frame, if it holds everything: every stream and domain that A keeps
    declaring is registered at B afterwards, unless B holds a stream that A advertises as its
    own Talker Failed declaration. The LeaveAll of that type comes after the value, so then the
    stream is leaving.
   */
  lemma LeaveAllSafety(p2pA: bool, p2pB: bool, station: Mvrp.mac, a: Db, b: Db, j: nat)
    requires Valid(a) && Valid(b) && FrameHoldsAll(station, WalkedAll(p2pA, a.attribs, TxLa, None), true)
    requires j < |a.attribs| && a.attribs[j].app.state in {VN, AN, AA, QA, AP, QP}
    requires !(a.attribs[j].kind == Listener && a.attribs[j].sub == 0)
    requires IsTalker(a.attribs[j].kind) ==> Wanted(b, a.attribs[j].talker.streamId)
    ensures var frame := TxPdu(station, WalkedAll(p2pA, a.attribs, TxLa, None), true, true).value;
            var key := KeyOf(a.attribs[j]);
            var after := Deliver(p2pB, b, frame);
            var p := Get(after.attribs, key);
            && p.Some?
            && p.value.reg.state == (if HeldAsFailed(Get(b.attribs, key), a.attribs[j]) then LV else IN)
            && (p.value.reg.state == LV ==> after.lv)
  {
    hide TxPdu, BuildAll, Deliver, KeyOf, Walked, Announces, Wanted, Get, UniqueKeys, NextApplicant, Announcement, AllSent, FrameHoldsAll, CleanList, Valid;
    var s := WalkedAll(p2pA, a.attribs, TxLa, None);
    SenderList(p2pA, a);
    TxLaAnnounces(p2pA, a.attribs[j]);
    assert s[j] == Walked(p2pA, a.attribs[j], TxLa, None);
    ValidKinds(a);
    HoldsSent(station, s);
    FrameLeavesAll(p2pB, station, s, b, j);
    LeavingTimed(Deliver(p2pB, b, TxPdu(station, s, true, true).value), KeyOf(a.attribs[j]));
  }

  lemma HoldsSent(station: Mvrp.mac, s: seq<Attrib>)
    requires FrameHoldsAll(station, s, true)
    ensures TxPdu(station, s, true, true).Some?
  {
    hide TxPdu, BuildAll, AllSent;
  }

  lemma LeavingTimed(db: Db, key: Key)
    requires Valid(db)
    ensures Get(db.attribs, key).Some? && Get(db.attribs, key).value.reg.state == LV ==> db.lv
  {
    hide KeyOf;
    var k := Find(db.attribs, key);
    if k < |db.attribs| {
      assert Settles(db.attribs[k], db.lv);
    }
  }

  /** Every attribute registered at B that A does not list at all is leaving, with B's leave timer running. */
  lemma UnlistedLeaves(p2pA: bool, p2pB: bool, station: Mvrp.mac, a: Db, b: Db, key: Key)
    requires Valid(a) && Valid(b) && TxPdu(station, WalkedAll(p2pA, a.attribs, TxLa, None), true, true).Some?
    requires !Msrp.Has(a.attribs, key) && Get(b.attribs, key).Some? && Get(b.attribs, key).value.reg.state == IN
    ensures var frame := TxPdu(station, WalkedAll(p2pA, a.attribs, TxLa, None), true, true).value;
            var after := Deliver(p2pB, b, frame);
            var p := Get(after.attribs, key);
            p.Some? && p.value.reg.state == LV && after.lv
  {
    hide TxPdu, ReceiveFrame, BuildAll, SpokenAll, Feed, Valid, Get, KeyOf, CanSpeakAll, WalkedAll, CleanList, UniqueKeys, NotAbout, Find;
    var s := WalkedAll(p2pA, a.attribs, TxLa, None);
    SenderList(p2pA, a);
    FrameRoundTrip(station, s, true);
    var frame, stops := TxPdu(station, s, true, true).value, BuildAll(s, true, true).stops;
    NotHeld(a.attribs, s, key);
    UnlistedFrame(s, stops, key);
    var source := if |frame| >= 12 then frame[6..12] else [];
    FeedAround(p2pB, b, SpokenAll(s, stops, true), source, key);
    HeldMsrp(b, key);
    LeavingTimed(Deliver(p2pB, b, frame), key);
  }

  lemma HeldMsrp(b: Db, key: Key)
    requires Valid(b) && Get(b.attribs, key).Some?
    ensures MsrpKind(Get(b.attribs, key).value.kind)
  {
    ValidKinds(b);
  }

  lemma NotHeld(s: seq<Attrib>, t: seq<Attrib>, key: Key)
    requires !Msrp.Has(s, key) && |t| == |s| && forall i :: 0 <= i < |s| ==> KeyOf(t[i]) == KeyOf(s[i])
    ensures forall i :: 0 <= i < |t| ==> KeyOf(t[i]) != key
  {
    hide KeyOf;
  }

  lemma UnlistedFrame(s: seq<Attrib>, stops: seq<nat>, key: Key)
    requires CleanList(s) && |stops| == 4 && CanSpeakAll(s, stops) && forall i :: 0 <= i < |s| ==> KeyOf(s[i]) != key
    ensures NotAbout(SpokenAll(s, stops, true), key)
    ensures forall c: Kind :: MsrpKind(c) ==> LeaveAll(c) in SpokenAll(s, stops, true)
  {
    hide Spoken, CanSpeak, CleanList, Sound, KeyOf, KeyHeard, Says, SpokenFrom;
    var ds := SpokenAll(s, stops, true);
    SpokenSplit(s, stops, 0);
    assert stops[..0] == [] && ds == SpokenFrom(s, stops, 0);
    TailFrom(s, stops, 0);
    forall c: Kind | MsrpKind(c) ensures LeaveAll(c) in ds {
      TailLeaveAlls(s, ds, 0, c);
    }
    forall x | 0 <= x < |ds| ensures if ds[x].LeaveAll? then MsrpKind(ds[x].kind) else Sound(ds[x]) && KeyHeard(ds[x]) != key {
      assert FromOneOf(s, ds[x], 0, 4);
      var k :| 0 <= k < 4 && FromType(s, ds[x], k);
      OrderMsrp(k);
      if ds[x].Value? {
        var i :| 0 <= i < |s| && s[i].kind == Order[k] && Says(ds[x], s[i]);
        SaysKey(ds[x], s[i]);
      }
    }
  }

  // ---------------------------------------------------------------- Two stations that declare one stream

  function OwnTalker(kind: Kind, id: id8): Attrib {
    Fresh(kind, id, []).(declare := true)
  }

  /** The list after a client's first New for a talker. */
  lemma OwnNewListed(p2p: bool, kind: Kind, id: id8)
    requires IsTalker(kind)
    ensures var run := [Apply(New, OwnTalker(kind, id))];
            var db := After(p2p, false, run);
            && PossibleRun(run) && Valid(db)
            && db.attribs == [Calmed(Handled(p2p, OwnTalker(kind, id), New))]
  {
    hide Valid, Handled;
    var r := OwnTalker(kind, id);
    var run := [Apply(New, r)];
    assert run[..0] == [];
    RunKeepsValid(p2p, false, run);
    assert Added([], r) == [r];
    NewHandled(p2p, kind, id);
    assert Touched(p2p, [r], 0, New) == [Handled(p2p, r, New)];
  }

  lemma NewHandled(p2p: bool, kind: Kind, id: id8)
    ensures var b := Handled(p2p, OwnTalker(kind, id), New);
            && b.kind == kind && b.declare && b.talker == NoTalker.(streamId := id) && b.app.state == VN && b.reg.state == MT
            && !Reclaimable(b)
  {
  }

  /** A LeaveAll frame with one talker: 34 bytes for it, and three empty LeaveAll messages. */
  lemma OneTalkerFits(station: Mvrp.mac, w: seq<Attrib>)
    requires |w| == 1 && w[0].kind == TalkerAdv && w[0].app.tx && !w[0].app.optional
    requires Mvrp.EventCode(w[0].app.snd, w[0].reg.state).Some?
    ensures FrameHoldsAll(station, w, true)
  {
    hide FrameHoldsAll, KeyBytes, Mvrp.EventCode;
    OneTalkerBytes(w, TalkerAdv);
    OneTalkerBytes(w, TalkerFailed);
    OneTalkerBytes(w, Listener);
    OneTalkerBytes(w, Domain);
    hide MessageBytes;
    assert BytesBefore(0, w, true) == 0;
    assert BytesBefore(1, w, true) == 34;
    assert BytesBefore(2, w, true) == 76;
    assert BytesBefore(3, w, true) == 92;
    assert BytesBefore(4, w, true) == 104;
    FrameHoldsAllIff(station, w, true);
  }

  lemma OneTalkerBytes(w: seq<Attrib>, kind: Kind)
    requires |w| == 1 && w[0].kind == TalkerAdv && w[0].app.tx && !w[0].app.optional && MsrpKind(kind)
    ensures MessageBytes(kind, w, true) == if kind == TalkerAdv then 34 else FirstLength(kind) as int + 8
  {
    hide KeyBytes, Mvrp.EventCode;
    var items := ItemsOf(kind, w);
    assert Leads(items[0]) <==> kind == TalkerAdv;
    assert FullSize(kind, items, 1) == 0;
    if kind == TalkerAdv {
      assert RunEnd(kind, items, 1) == 1;
      assert FullSize(kind, items, 0) == VectorLength(kind, 1);
    } else {
      assert FullSize(kind, items, 0) == 0;
    }
  }

  lemma NewWalked(p2p: bool, a: Attrib)
    requires a.app.state == VN && a.reg.state == MT
    ensures var w := Walked(p2p, a, TxLa, None);
            w.kind == a.kind && w.app.tx && !w.app.optional && Mvrp.EventCode(w.app.snd, w.reg.state).Some?
  {
  }

  /**
    A client of A advertises a stream that a client of B declares as failed. A's LeaveAll frame
    announces the stream to B, and leaves it leaving there.
   */
  lemma CrossedTalkersLeave(p2pA: bool, p2pB: bool, station: Mvrp.mac, id: id8)
    ensures var runA, runB := [Apply(New, OwnTalker(TalkerAdv, id))], [Apply(New, OwnTalker(TalkerFailed, id))];
            var a, b := After(p2pA, false, runA), After(p2pB, false, runB);
            var w := WalkedAll(p2pA, a.attribs, TxLa, None);
            && PossibleRun(runA) && PossibleRun(runB) && FrameHoldsAll(station, w, true)
            && TxPdu(station, w, true, true).Some?
            && var after := Deliver(p2pB, b, TxPdu(station, w, true, true).value);
            var p := Get(after.attribs, TalkerKey(id));
            p.Some? && p.value.reg.state == LV && after.lv
  {
    hide After, Handled, Valid, FrameHoldsAll, TxPdu, Deliver, Walked;
    OwnNewListed(p2pA, TalkerAdv, id);
    OwnNewListed(p2pB, TalkerFailed, id);
    NewHandled(p2pA, TalkerAdv, id);
    NewHandled(p2pB, TalkerFailed, id);
    var a := After(p2pA, false, [Apply(New, OwnTalker(TalkerAdv, id))]);
    var b := After(p2pB, false, [Apply(New, OwnTalker(TalkerFailed, id))]);
    var w := WalkedAll(p2pA, a.attribs, TxLa, None);
    NewWalked(p2pA, a.attribs[0]);
    OneTalkerFits(station, w);
    HoldsSent(station, w);
    NoPruning(p2pB, b, id);
    LeaveAllSafety(p2pA, p2pB, station, a, b, 0);
  }

  lemma NoPruning(p2p: bool, b: Db, id: id8)
    requires b == After(p2p, false, [Apply(New, OwnTalker(TalkerFailed, id))])
    ensures Wanted(b, id)
  {
    hide WithTarget, Touched, CalmedAll;
    assert [Apply(New, OwnTalker(TalkerFailed, id))][..0] == [];
  }
}
