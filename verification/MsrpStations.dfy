/**
  Two MSRP stations: the frame one builds from its list, delivered to the other's receiver,
  merge and registrars.
 */
module MsrpStations {
  import opened Mrp
  import opened Mrpdu
  import opened MrpduParse
  import opened Emission
  import opened EmissionMeaning
  import opened EmissionFits
  import Mvrp
  import MvrpStations
  import opened Msrp
  import opened MsrpRuns
  import opened MsrpKeys
  import opened MsrpWire
  import opened MsrpFrames

  // ---------------------------------------------------------------- Delivery

  function InputOf(d: Dispatch, source: seq<byte>): Input {
    if d.LeaveAll? then LeaveAllHeard(d.kind)
    else if Sound(d) then Apply(MvrpStations.RxEvent(d.ev), Heard(d, source))
    else Reclaim
  }

  function Feed(p2p: bool, db: Db, ds: seq<Dispatch>, source: seq<byte>): Db {
    if ds == [] then db
    else
      var n := |ds| - 1;
      Step(p2p, Feed(p2p, db, ds[..n], source), InputOf(ds[n], source))
  }

  /** A station receives a frame: every dispatched event is processed in order. */
  function Deliver(p2p: bool, db: Db, frame: seq<byte>): Db {
    Feed(p2p, db, ReceiveFrame(frame).out, if |frame| >= 12 then frame[6..12] else [])
  }

  function KeyHeard(d: Dispatch): Key
    requires Sound(d)
  {
    KeyOf(Heard(d, []))
  }

  ghost predicate AllValues(ds: seq<Dispatch>) {
    forall i :: 0 <= i < |ds| ==> Sound(ds[i])
  }

  // ---------------------------------------------------------------- One value at a time

  lemma ValueStep(p2p: bool, db: Db, d: Dispatch, source: seq<byte>, key: Key)
    requires Valid(db) && Sound(d) && KeyHeard(d) != key
    ensures var after := Step(p2p, db, InputOf(d, source));
            && Valid(after) && Get(after.attribs, key) == Get(db.attribs, key)
            && after.pruning == db.pruning && after.interesting == db.interesting
  {
    hide Heard, KeyOf, Get, ApplyStep, Valid, Arriving, Handled, Acted, Reclaimable, Interested;
    var e, r := MvrpStations.RxEvent(d.ev), Heard(d, source);
    HeardArrives(d, source);
    HeardSameKey(d, source);
    ApplyKeeps(p2p, db, e, r);
    ApplyPruning(p2p, db, e, r);
    if !Interested(db, r) {
      PrunedTalkerIgnored(p2p, db, e, r);
    } else if e == RMt && !Msrp.Has(db.attribs, KeyOf(r)) {
      IgnoredMt(p2p, db, r);
    } else {
      ApplyPerKey(p2p, db, e, r, key);
    }
  }

  lemma IgnoredMt(p2p: bool, db: Db, r: Attrib)
    requires Interested(db, r) && !Msrp.Has(db.attribs, KeyOf(r))
    ensures ApplyStep(p2p, db, RMt, r) == db.(join := true)
  {
    hide Interested, Msrp.Has;
  }

  lemma HeardSameKey(d: Dispatch, source: seq<byte>)
    requires Sound(d)
    ensures KeyOf(Heard(d, source)) == KeyHeard(d)
  {
    hide HeardTalker;
  }

  /** Values about other keys leave a key alone. */
  lemma {:induction false} FeedOthers(p2p: bool, db: Db, ds: seq<Dispatch>, source: seq<byte>, key: Key)
    requires Valid(db) && AllValues(ds) && forall i :: 0 <= i < |ds| ==> KeyHeard(ds[i]) != key
    ensures var after := Feed(p2p, db, ds, source);
            && Valid(after) && Get(after.attribs, key) == Get(db.attribs, key)
            && after.pruning == db.pruning && after.interesting == db.interesting
  {
    hide KeyHeard, Step, InputOf, Get, Valid, Sound;
    if ds != [] {
      var n := |ds| - 1;
      FeedOthers(p2p, db, ds[..n], source, key);
      ValueStep(p2p, Feed(p2p, db, ds[..n], source), ds[n], source, key);
    }
  }

  /** What B ends up with for a key it heard announced. */
  predicate RegisteredAs(before: Option<Attrib>, after: Option<Attrib>, d: Dispatch)
    requires Sound(d)
  {
    && after.Some? && after.value.reg.state == IN
    && (before.None? ==> after.value.kind == d.kind && after.value.talker == Heard(d, []).talker
                         && after.value.domain == Heard(d, []).domain && after.value.sub == Heard(d, []).sub)
  }

  lemma AnnouncedStep(p2p: bool, db: Db, d: Dispatch, source: seq<byte>)
    requires Valid(db) && Sound(d) && d.ev in {EV_NEW, EV_JOININ, EV_JOINMT}
    requires IsTalker(d.kind) ==> Wanted(db, Heard(d, []).talker.streamId)
    ensures var after := Step(p2p, db, InputOf(d, source));
            Valid(after) && RegisteredAs(Get(db.attribs, KeyHeard(d)), Get(after.attribs, KeyHeard(d)), d)
  {
    hide Heard, KeyOf, Get, ApplyStep, Valid, Arriving;
    HeardArrives(d, source);
    HeardSameKey(d, source);
    HeardParts(d, source);
    WantedInterested(db, Heard(d, source));
    ApplyKeeps(p2p, db, MvrpStations.RxEvent(d.ev), Heard(d, source));
    HeardRegisters(p2p, db, d, source);
  }

  lemma WantedInterested(db: Db, r: Attrib)
    requires IsTalker(r.kind) ==> Wanted(db, r.talker.streamId)
    ensures Interested(db, r)
  {
    hide Msrp.Has;
  }

  lemma HeardParts(d: Dispatch, source: seq<byte>)
    requires Sound(d)
    ensures var h, g := Heard(d, source), Heard(d, []);
            h.kind == g.kind == d.kind && h.talker == g.talker && h.domain == g.domain && h.sub == g.sub
  {
    hide HeardTalker;
  }

  // ---------------------------------------------------------------- A frame's values have distinct keys

  ghost predicate Distinct(ds: seq<Dispatch>)
    requires AllValues(ds)
  {
    forall i, j :: 0 <= i < j < |ds| ==> KeyHeard(ds[i]) != KeyHeard(ds[j])
  }

  /** No listener value comes before a talker value. */
  ghost predicate TalkersFirst(ds: seq<Dispatch>)
    requires AllValues(ds)
  {
    forall i, j :: 0 <= i < j < |ds| && IsTalker(ds[j].kind) ==> IsTalker(ds[i].kind)
  }

  lemma SaysKey(d: Dispatch, a: Attrib)
    requires Sound(d) && Says(d, a)
    ensures KeyHeard(d) == KeyOf(a) && d.kind == a.kind
  {
    HeardParts(d, []);
  }

  lemma {:induction false} ValueAt(kind: Kind, s: seq<Attrib>, indices: seq<nat>, x: nat) returns (i: nat)
    requires MsrpKind(kind) && CleanList(s) && Sent(kind, ItemsOf(kind, s), indices) && AllOfKind(kind, s, indices)
    requires x < |ValuesOf(kind, ItemsOf(kind, s), indices)|
    ensures var d := ValuesOf(kind, ItemsOf(kind, s), indices)[x];
            i in indices && i < |s| && Sound(d) && Says(d, s[i])
  {
    hide ValueOf, ItemOf, Says, Sound, Clean;
    var a := s[indices[0]];
    SentValueSays(kind, a);
    var head := ValueOf(kind, ItemOf(kind, a));
    if x < |head| {
      i := indices[0];
    } else {
      i := ValueAt(kind, s, indices[1..], x - |head|);
    }
  }

  lemma {:induction false} ValuesApart(kind: Kind, s: seq<Attrib>, indices: seq<nat>, x: nat, y: nat) returns (i: nat, j: nat)
    requires MsrpKind(kind) && CleanList(s) && Sent(kind, ItemsOf(kind, s), indices) && AllOfKind(kind, s, indices)
    requires Increasing(indices) && x < y < |ValuesOf(kind, ItemsOf(kind, s), indices)|
    ensures var ds := ValuesOf(kind, ItemsOf(kind, s), indices);
            && i < j < |s| && Sound(ds[x]) && Sound(ds[y]) && Says(ds[x], s[i]) && Says(ds[y], s[j])
  {
    hide ValueOf, ItemOf, Says, Sound, Clean;
    var a := s[indices[0]];
    SentValueSays(kind, a);
    var head := ValueOf(kind, ItemOf(kind, a));
    if x < |head| {
      i := indices[0];
      j := ValueAt(kind, s, indices[1..], y - |head|);
      var k :| 0 <= k < |indices[1..]| && indices[1..][k] == j;
      assert indices[0] < indices[k + 1];
    } else {
      i, j := ValuesApart(kind, s, indices[1..], x - |head|, y - |head|);
    }
  }

  lemma OneKind(kind: Kind, s: seq<Attrib>, stop: nat, x: nat) returns (i: nat)
    requires MsrpKind(kind) && CleanList(s) && CanSpeak(kind, s, stop) && x < |Spoken(kind, s, stop, false)|
    ensures var d := Spoken(kind, s, stop, false)[x]; i < |s| && Sound(d) && Says(d, s[i]) && s[i].kind == kind
  {
    hide SentIndices, ValuesOf, Sent, Says, Sound, CleanList;
    SentAreMine(kind, s, stop);
    i := ValueAt(kind, s, SentIndices(kind, ItemsOf(kind, s), 0, stop), x);
  }

  lemma OneKindApart(kind: Kind, s: seq<Attrib>, stop: nat, x: nat, y: nat) returns (i: nat, j: nat)
    requires MsrpKind(kind) && CleanList(s) && CanSpeak(kind, s, stop) && x < y < |Spoken(kind, s, stop, false)|
    ensures var ds := Spoken(kind, s, stop, false);
            && i < |s| && j < |s| && i != j && Sound(ds[x]) && Sound(ds[y]) && Says(ds[x], s[i]) && Says(ds[y], s[j])
            && s[i].kind == s[j].kind == kind
  {
    hide SentIndices, ValuesOf, Sent, Says, Sound, CleanList;
    SentAreMine(kind, s, stop);
    var indices := SentIndices(kind, ItemsOf(kind, s), 0, stop);
    SentExactly(kind, ItemsOf(kind, s), 0, stop);
    i, j := ValuesApart(kind, s, indices, x, y);
    var ds := Spoken(kind, s, stop, false);
    SpokenKind(kind, s, stop, x);
    SpokenKind(kind, s, stop, y);
    SaysKind(ds[x], s[i]);
    SaysKind(ds[y], s[j]);
  }

  lemma SaysKind(d: Dispatch, a: Attrib)
    requires Sound(d) && Says(d, a)
    ensures d.kind == a.kind
  {
    SaysKey(d, a);
  }

  lemma SpokenKind(kind: Kind, s: seq<Attrib>, stop: nat, x: nat)
    requires MsrpKind(kind) && CleanList(s) && CanSpeak(kind, s, stop) && x < |Spoken(kind, s, stop, false)|
    ensures Spoken(kind, s, stop, false)[x].kind == kind
  {
    hide Spoken, CleanList, SentIndices, Sent;
    var i := OneKind(kind, s, stop, x);
    SaysKind(Spoken(kind, s, stop, false)[x], s[i]);
  }

  /** Where in the list a value of the frame comes from. */
  lemma {:induction false} SpokenAt(s: seq<Attrib>, stops: seq<nat>, x: nat) returns (i: nat, k: nat)
    requires CleanList(s) && CanSpeakAll(s, stops) && x < |SpokenAll(s, stops, false)|
    ensures var d := SpokenAll(s, stops, false)[x];
            i < |s| && Sound(d) && Says(d, s[i]) && k < |stops| && s[i].kind == Order[k]
  {
    hide Spoken, CanSpeak, Says, Sound, CleanList;
    var n := |stops| - 1;
    var before := SpokenAll(s, stops[..n], false);
    if x < |before| {
      i, k := SpokenAt(s, stops[..n], x);
    } else {
      k := n;
      i := OneKind(Order[n], s, stops[n], x - |before|);
    }
  }

  /** Two values of a frame come from different attributes, in the order of the types. */
  lemma {:induction false} SpokenApart(s: seq<Attrib>, stops: seq<nat>, x: nat, y: nat) returns (i: nat, j: nat)
    requires CleanList(s) && CanSpeakAll(s, stops) && x < y < |SpokenAll(s, stops, false)|
    ensures var ds := SpokenAll(s, stops, false);
            && i < |s| && j < |s| && i != j && Sound(ds[x]) && Sound(ds[y]) && Says(ds[x], s[i]) && Says(ds[y], s[j])
            && (IsTalker(s[j].kind) ==> IsTalker(s[i].kind))
  {
    hide Spoken, CanSpeak, Says, Sound, CleanList;
    var n := |stops| - 1;
    var before := SpokenAll(s, stops[..n], false);
    if y < |before| {
      i, j := SpokenApart(s, stops[..n], x, y);
    } else if x < |before| {
      var k;
      i, k := SpokenAt(s, stops[..n], x);
      j := OneKind(Order[n], s, stops[n], y - |before|);
      EarlierType(k, n);
    } else {
      i, j := OneKindApart(Order[n], s, stops[n], x - |before|, y - |before|);
    }
  }

  lemma EarlierType(k: nat, n: nat)
    requires k < n < 4
    ensures Order[k] != Order[n] && (IsTalker(Order[n]) ==> IsTalker(Order[k]))
  {
  }

  lemma SpokenDistinct(s: seq<Attrib>, stops: seq<nat>)
    requires CleanList(s) && UniqueKeys(s) && CanSpeakAll(s, stops)
    ensures var ds := SpokenAll(s, stops, false); AllValues(ds) && Distinct(ds) && TalkersFirst(ds)
  {
    hide SpokenAll, Says, Sound, KeyOf, KeyHeard, CanSpeakAll, CleanList;
    var ds := SpokenAll(s, stops, false);
    forall x | 0 <= x < |ds| ensures Sound(ds[x]) {
      var i, k := SpokenAt(s, stops, x);
    }
    forall x, y | 0 <= x < y < |ds|
      ensures KeyHeard(ds[x]) != KeyHeard(ds[y]) && (IsTalker(ds[y].kind) ==> IsTalker(ds[x].kind))
    {
      var i, j := SpokenApart(s, stops, x, y);
      SaysKey(ds[x], s[i]);
      SaysKey(ds[y], s[j]);
      if i < j {
        assert KeyOf(s[i]) != KeyOf(s[j]);
      } else {
        assert KeyOf(s[j]) != KeyOf(s[i]);
      }
    }
  }

  // ---------------------------------------------------------------- A frame's announcements register

  lemma {:induction false} FeedAfter(p2p: bool, db: Db, a: seq<Dispatch>, b: seq<Dispatch>, source: seq<byte>)
    ensures Feed(p2p, db, a + b, source) == Feed(p2p, Feed(p2p, db, a, source), b, source)
    decreases |b|
  {
    hide Step, InputOf;
    if b == [] {
      assert a + b == a;
    } else {
      var n := |b| - 1;
      assert (a + b)[..|a + b| - 1] == a + b[..n];
      FeedAfter(p2p, db, a, b[..n], source);
    }
  }

  lemma FeedOne(p2p: bool, db: Db, d: Dispatch, source: seq<byte>)
    ensures Feed(p2p, db, [d], source) == Step(p2p, db, InputOf(d, source))
  {
    assert [d][..0] == [];
  }

  lemma WantedStays(db: Db, after: Db, id: id8)
    requires Wanted(db, id) && after.pruning == db.pruning && after.interesting == db.interesting
    requires Get(after.attribs, ListenerKey(id)) == Get(db.attribs, ListenerKey(id))
    ensures Wanted(after, id)
  {
    hide Msrp.Find;
  }

  /** Among values with distinct keys, an announcement that is wanted registers for good. */
  lemma FeedRegisters(p2p: bool, db: Db, ds: seq<Dispatch>, source: seq<byte>, k: nat)
    requires Valid(db) && AllValues(ds) && Distinct(ds) && TalkersFirst(ds)
    requires k < |ds| && ds[k].ev in {EV_NEW, EV_JOININ, EV_JOINMT}
    requires IsTalker(ds[k].kind) ==> Wanted(db, Heard(ds[k], []).talker.streamId)
    ensures var key := KeyHeard(ds[k]);
            RegisteredAs(Get(db.attribs, key), Get(Feed(p2p, db, ds, source).attribs, key), ds[k])
  {
    hide Heard, KeyHeard, Get, Valid, Sound, RegisteredAs, Feed, Wanted, IsTalker;
    var d, key := ds[k], KeyHeard(ds[k]);
    assert ds == ds[..k] + [d] + ds[k + 1..];
    FeedAfter(p2p, db, ds[..k] + [d], ds[k + 1..], source);
    FeedAfter(p2p, db, ds[..k], [d], source);
    var before := Feed(p2p, db, ds[..k], source);
    FeedOne(p2p, before, d, source);
    FeedOthers(p2p, db, ds[..k], source, key);
    if IsTalker(d.kind) {
      var id := Heard(d, []).talker.streamId;
      forall i | 0 <= i < k ensures KeyHeard(ds[..k][i]) != ListenerKey(id) {
        TalkerKeyHeard(ds[i]);
      }
      FeedOthers(p2p, db, ds[..k], source, ListenerKey(id));
      WantedStays(db, before, id);
    }
    AnnouncedStep(p2p, before, d, source);
    FeedOthers(p2p, Feed(p2p, before, [d], source), ds[k + 1..], source, key);
  }

  lemma TalkerKeyHeard(d: Dispatch)
    requires Sound(d) && IsTalker(d.kind)
    ensures KeyHeard(d).TalkerKey?
  {
  }

  /** The events that register: what a Tx in VP, VN, AN, AP or AA puts on the wire. */
  predicate Announces(a: Attrib) {
    MustSend(a) && Mvrp.EventCode(a.app.snd, a.reg.state) in {Some(EV_NEW), Some(EV_JOININ), Some(EV_JOINMT)}
  }

  /** A domain as it is announced: class, priority and VID; the neighbour's priority is the heard one. */
  predicate SameDomain(a: Attrib, b: Attrib) {
    a.domain.classId == b.domain.classId && a.domain.priority == b.domain.priority && a.domain.vlan == b.domain.vlan
  }

  lemma FrameRegisters(p2p: bool, station: Mvrp.mac, s: seq<Attrib>, db: Db, j: nat)
    requires UniqueKeys(s) && CleanList(s) && Valid(db) && TxPdu(station, s, false, false).Some?
    requires j < |s| && Announces(s[j]) && (IsTalker(s[j].kind) ==> Wanted(db, s[j].talker.streamId))
    requires var b := BuildAll(s, false, false);
             b.Built? && |b.stops| == 4 && MsrpKind(s[j].kind) && j < b.stops[OrderOf(s[j].kind)]
    ensures var after := Get(Deliver(p2p, db, TxPdu(station, s, false, false).value).attribs, KeyOf(s[j]));
            && after.Some? && after.value.reg.state == IN
            && (Get(db.attribs, KeyOf(s[j])).None? ==>
                  after.value.kind == s[j].kind && (IsTalker(s[j].kind) ==> after.value.talker == s[j].talker)
                  && (s[j].kind == Listener ==> after.value.sub == s[j].sub)
                  && (s[j].kind == Domain ==> SameDomain(after.value, s[j])))
  {
    hide TxPdu, ReceiveFrame, BuildAll, SpokenAll, Feed, CleanList, UniqueKeys, Valid, Get, KeyOf, CanSpeakAll, Heard, MustSend, Distinct, TalkersFirst;
    var frame, stops := TxPdu(station, s, false, false).value, BuildAll(s, false, false).stops;
    var source := if |frame| >= 12 then frame[6..12] else [];
    FrameRoundTrip(station, s, false);
    SpokenDistinct(s, stops);
    var d := FrameTellsAll(station, s, false, j);
    var ds := SpokenAll(s, stops, false);
    var k :| 0 <= k < |ds| && ds[k] == d;
    SaysKey(d, s[j]);
    SaysTalker(d, s[j]);
    FeedRegisters(p2p, db, ds, source, k);
  }

  lemma SaysTalker(d: Dispatch, a: Attrib)
    requires Sound(d) && Says(d, a)
    ensures IsTalker(a.kind) ==> Heard(d, []).talker == a.talker
    ensures a.kind == Listener ==> Heard(d, []).sub == a.sub
    ensures a.kind == Domain ==> SameDomain(Heard(d, []), a)
    ensures Mvrp.EventCode(a.app.snd, a.reg.state) == Some(d.ev)
  {
  }

  // ---------------------------------------------------------------- Two stations

  lemma TxAnnounces(p2p: bool, a: Attrib)
    requires a.app.state in {VP, VN, AN, AP, AA} && !(a.kind == Listener && a.sub == 0)
    ensures var w := Walked(p2p, a, Tx, None);
            && Announces(w) && KeyOf(w) == KeyOf(a)
            && w.kind == a.kind && w.talker == a.talker && w.sub == a.sub && w.domain == a.domain
  {
  }

  lemma AllSentReaches(s: seq<Attrib>, stops: seq<nat>, j: nat)
    requires |stops| == 4 && AllSent(s, stops) && j < |s| && MsrpKind(s[j].kind) && MustSend(s[j])
    ensures j < stops[OrderOf(s[j].kind)]
  {
    hide KeyBytes;
    var k := OrderOf(s[j].kind);
    assert NoneDue(ItemsOf(Order[k], s), stops[k]);
    assert Leads(ItemsOf(Order[k], s)[j]);
  }

  /**
    When a Tx frame of A that holds everything is delivered to B, B registers every stream and
    domain that A was announcing, with A's record if it is new to B; only talkers that B
    prunes are left out.
   */
  lemma TwoStationRegistration(p2pA: bool, p2pB: bool, station: Mvrp.mac, a: Db, b: Db, j: nat)
    requires Valid(a) && Valid(b) && FrameHoldsAll(station, WalkedAll(p2pA, a.attribs, Tx, None), false)
    requires j < |a.attribs| && a.attribs[j].app.state in {VP, VN, AN, AP, AA}
    requires !(a.attribs[j].kind == Listener && a.attribs[j].sub == 0)
    requires IsTalker(a.attribs[j].kind) ==> Wanted(b, a.attribs[j].talker.streamId)
    ensures var frame := TxPdu(station, WalkedAll(p2pA, a.attribs, Tx, None), false, false).value;
            var key := KeyOf(a.attribs[j]);
            var after := Get(Deliver(p2pB, b, frame).attribs, key);
            && after.Some? && after.value.reg.state == IN
            && (Get(b.attribs, key).None? ==>
                  after.value.kind == a.attribs[j].kind
                  && (IsTalker(a.attribs[j].kind) ==> after.value.talker == a.attribs[j].talker)
                  && (a.attribs[j].kind == Listener ==> after.value.sub == a.attribs[j].sub)
                  && (a.attribs[j].kind == Domain ==> SameDomain(after.value, a.attribs[j])))
  {
    hide TxPdu, BuildAll, Deliver, KeyOf, Walked, Announces, Wanted, Get, UniqueKeys, NextApplicant, Announcement, AllSent, SpokenAll, CanSpeakAll;
    var s := WalkedAll(p2pA, a.attribs, Tx, None);
    NobodyLeavesOnTx(a.attribs);
    WalkKeeps(p2pA, a.attribs, Tx, None, a.lv, a.lv);
    SettledListClean(s, a.lv);
    TxAnnounces(p2pA, a.attribs[j]);
    FrameRoundTrip(station, s, false);
    AllSentReaches(s, BuildAll(s, false, false).stops, j);
    FrameRegisters(p2pB, station, s, b, j);
  }

  lemma SettledListClean(s: seq<Attrib>, lv: bool)
    requires AllSettle(s, lv)
    ensures CleanList(s)
  {
    forall i | 0 <= i < |s| ensures MsrpKind(s[i].kind) && Clean(s[i]) {
      assert Settles(s[i], lv);
    }
  }
}
