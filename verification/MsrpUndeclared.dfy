/**
  What an MSRP LeaveAll frame does to a key that its sender does not keep declared: the key is
  leaving under the leave timer, or an Mt with news has taken its registration away at once.
 */
module MsrpUndeclared {
  import opened Mrp
  import opened Mrpdu
  import opened MrpduParse
  import opened Emission
  import opened EmissionMeaning
  import opened EmissionFits
  import Mvrp
  import opened Msrp
  import opened MsrpRuns
  import opened MsrpKeys
  import opened MsrpWire
  import opened MsrpFrames
  import opened MsrpStations
  import opened MsrpLeaveAll

  /** A withdrawn or observed attribute, one whose first Join is still to come, or a listener that is ignored. */
  predicate NotKept(a: Attrib) {
    a.app.state in {VO, AO, QO, LO, LA, VP} || (a.kind == Listener && a.sub == 0)
  }

  /** A value about the key that B does not prune and that differs from what B has. */
  predicate TellsNews(b: Db, known: seq<Attrib>, o: Attrib, d: Dispatch) {
    && Sound(d) && KeyHeard(d) == KeyOf(o)
    && (IsTalker(d.kind) ==> Wanted(b, Heard(d, []).talker.streamId))
    && BringsNews(known, o, Heard(d, []))
  }

  ghost predicate SomeNews(b: Db, known: seq<Attrib>, o: Attrib, ds: seq<Dispatch>) {
    exists x :: 0 <= x < |ds| && TellsNews(b, known, o, ds[x])
  }

  // ---------------------------------------------------------------- One Mt

  /** An Mt forgets a listed attribute that it has news of, and leaves any other registrar alone. */
  lemma MtStep(p2p: bool, db: Db, d: Dispatch, source: seq<byte>, o: Attrib)
    requires Valid(db) && Sound(d) && d.ev == EV_MT && Get(db.attribs, KeyHeard(d)) == Some(o) && KeyOf(o) == KeyHeard(d)
    requires o.reg.state != MT
    ensures var next := Step(p2p, db, InputOf(d, source));
            var p := Get(next.attribs, KeyHeard(d));
            && Valid(next) && next.pruning == db.pruning && next.interesting == db.interesting
            && (if TellsNews(db, db.attribs, o, d) then p.None? || p.value.reg.state == MT
                else p.Some? && p.value.reg.state == o.reg.state && p.value.kind == o.kind)
  {
    hide Heard, KeyOf, ApplyStep, Valid, Arriving, Handled, Reclaimable, Interested, Merged, BringsNews, Wanted;
    var r := Heard(d, source);
    HeardArrives(d, source);
    HeardSameKey(d, source);
    HeardParts(d, source);
    SameNews(db.attribs, db.attribs, o, o, d, source);
    WantedIs(db, d, source);
    ApplyKeeps(p2p, db, RMt, r);
    ApplyPruning(p2p, db, RMt, r);
    if !Interested(db, r) {
      PrunedTalkerIgnored(p2p, db, RMt, r);
    } else {
      ApplyPerKey(p2p, db, RMt, r, KeyOf(r));
      MtHandled(p2p, db.attribs, o, r);
    }
  }

  lemma WantedIs(db: Db, d: Dispatch, source: seq<byte>)
    requires Sound(d)
    ensures Interested(db, Heard(d, source)) <==> (IsTalker(d.kind) ==> Wanted(db, Heard(d, []).talker.streamId))
  {
    hide Msrp.Has, HeardTalker;
  }

  lemma MtHandled(p2p: bool, s: seq<Attrib>, o: Attrib, r: Attrib)
    requires KeyOf(o) == KeyOf(r) && o.reg.state != MT
    ensures var b := Handled(p2p, Merged(s, o, r), RMt);
            if BringsNews(s, o, r) then b.reg.state == MT
            else b.reg.state == o.reg.state && b.kind == o.kind && !Reclaimable(b)
  {
    hide Msrp.Has, NextApplicant, Announcement;
  }

  /** News depends on what is said, on what is held, and for a listener on whether its talker is known. */
  lemma SameNews(s: seq<Attrib>, t: seq<Attrib>, o: Attrib, p: Attrib, d: Dispatch, source: seq<byte>)
    requires Sound(d) && Like(Some(o), Some(p))
    requires o.kind == Listener ==> (Msrp.Has(s, TalkerKey(o.talker.streamId)) <==> Msrp.Has(t, TalkerKey(o.talker.streamId)))
    ensures BringsNews(s, o, Heard(d, [])) <==> BringsNews(t, p, Heard(d, source))
  {
    hide Msrp.Has, HeardTalker;
  }

  // ---------------------------------------------------------------- The Mt amid the frame's other events

  lemma WantedBefore(p2p: bool, db: Db, ds: seq<Dispatch>, source: seq<byte>, id: id8)
    requires Valid(db) && NotAbout(ds, ListenerKey(id))
    ensures Wanted(Feed(p2p, db, ds, source), id) <==> Wanted(db, id)
  {
    hide Feed, Valid, NotAbout, Find;
    FeedAround(p2p, db, ds, source, ListenerKey(id));
  }

  /** From the listeners on, a frame's events are not about talkers. */
  lemma NoTalkersLate(s: seq<Attrib>, ds: seq<Dispatch>, lo: nat, id: id8)
    requires FromTypes(s, ds, lo, 4) && 2 <= lo
    ensures NotAbout(ds, TalkerKey(id))
  {
    hide Sound, Says, KeyHeard, KeyOf;
    forall x | 0 <= x < |ds| ensures if ds[x].LeaveAll? then MsrpKind(ds[x].kind) else Sound(ds[x]) && KeyHeard(ds[x]) != TalkerKey(id) {
      assert FromOneOf(s, ds[x], lo, 4);
      var k :| lo <= k < 4 && FromType(s, ds[x], k);
      OrderMsrp(k);
      if ds[x].Value? {
        var i :| 0 <= i < |s| && s[i].kind == Order[k] && Says(ds[x], s[i]);
        SaysKey(ds[x], s[i]);
        LateKey(ds[x]);
      }
    }
  }

  lemma LateKey(d: Dispatch)
    requires Sound(d) && !IsTalker(d.kind)
    ensures !KeyHeard(d).TalkerKey?
  {
  }

  /** The same talkers are listed before and after events that are not about them. */
  lemma TalkerStays(p2p: bool, db: Db, ds: seq<Dispatch>, source: seq<byte>, id: id8)
    requires Valid(db) && NotAbout(ds, TalkerKey(id))
    ensures Msrp.Has(db.attribs, TalkerKey(id)) <==> Msrp.Has(Feed(p2p, db, ds, source).attribs, TalkerKey(id))
  {
    hide Feed, Valid, NotAbout, Find;
    FeedAround(p2p, db, ds, source, TalkerKey(id));
  }

  ghost predicate Split(s: seq<Attrib>, before: seq<Dispatch>, d: Dispatch, after: seq<Dispatch>, m: nat) {
    && m < 4 && Sound(d) && d.kind == Order[m]
    && NotAbout(before, KeyHeard(d)) && NotAbout(after, KeyHeard(d))
    && FromTypes(s, before, 0, m + 1) && FromTypes(s, after, m, 4)
    && (forall c: Kind :: MsrpKind(c) ==> LeaveAll(c) in before || LeaveAll(c) in after)
  }

  /** What B has of the key when the Mt arrives, and what it has in the end. */
  lemma MtAmid(p2p: bool, b: Db, s: seq<Attrib>, before: seq<Dispatch>, d: Dispatch, after: seq<Dispatch>, m: nat,
               source: seq<byte>, o: Attrib)
    requires Valid(b) && Split(s, before, d, after, m) && d.ev == EV_MT
    requires Get(b.attribs, KeyHeard(d)) == Some(o) && KeyOf(o) == KeyHeard(d) && o.reg.state == IN && MsrpKind(o.kind)
    ensures var end := Feed(p2p, b, before + [d] + after, source);
            var p := Get(end.attribs, KeyHeard(d));
            && Valid(end)
            && (if TellsNews(b, end.attribs, o, d) then p.None? || p.value.reg.state == MT
                else p.Some? && p.value.reg.state == LV)
  {
    hide Feed, Valid, NotAbout, Get, Sound, Heard, KeyHeard, KeyOf, Wanted, InputOf, Step, FromTypes, BringsNews;
    var key := KeyHeard(d);
    var mid := Feed(p2p, b, before, source);
    FeedAfter(p2p, b, before + [d], after, source);
    FeedAfter(p2p, b, before, [d], source);
    FeedOne(p2p, mid, d, source);
    FeedAround(p2p, b, before, source, key);
    var o' := Get(mid.attribs, key).value;
    LikeKey(o, o');
    var next := Step(p2p, mid, InputOf(d, source));
    MtStep(p2p, mid, d, source, o');
    FeedAround(p2p, next, after, source, key);
    var end := Feed(p2p, next, after, source);
    NewsThroughout(p2p, b, s, before, d, after, m, source, o, o');
  }

  lemma LikeKey(o: Attrib, p: Attrib)
    requires Like(Some(o), Some(p))
    ensures KeyOf(o) == KeyOf(p)
  {
  }

  lemma NewsThroughout(p2p: bool, b: Db, s: seq<Attrib>, before: seq<Dispatch>, d: Dispatch, after: seq<Dispatch>, m: nat,
                       source: seq<byte>, o: Attrib, o': Attrib)
    requires Valid(b) && Split(s, before, d, after, m) && KeyOf(o) == KeyHeard(d) && MsrpKind(o.kind) && Like(Some(o), Some(o'))
    requires var mid := Feed(p2p, b, before, source); Valid(mid) && Valid(Step(p2p, mid, InputOf(d, source)))
    ensures var mid := Feed(p2p, b, before, source);
            var end := Feed(p2p, Step(p2p, mid, InputOf(d, source)), after, source);
            TellsNews(mid, mid.attribs, o', d) <==> TellsNews(b, end.attribs, o, d)
  {
    hide Feed, Valid, NotAbout, Sound, Heard, KeyHeard, KeyOf, Wanted, Step, FromTypes, BringsNews, Msrp.Has;
    var mid := Feed(p2p, b, before, source);
    var next := Step(p2p, mid, InputOf(d, source));
    var end := Feed(p2p, next, after, source);
    LikeKey(o, o');
    OrderMsrp(m);
    HeldAsHeard(d, o);
    if IsTalker(d.kind) {
      var id := Heard(d, []).talker.streamId;
      TalkersBefore(s, before, m + 1, id);
      WantedBefore(p2p, b, before, source, id);
    }
    if o.kind == Listener {
      var id := o.talker.streamId;
      NoTalkersLate(s, after, m, id);
      TalkerStays(p2p, next, after, source, id);
      LateKey(d);
      ListenerHasNoTalkerKey(p2p, mid, d, source, id);
    }
    SameNews(end.attribs, mid.attribs, o, o', d, []);
  }

  lemma HeldAsHeard(d: Dispatch, o: Attrib)
    requires Sound(d) && KeyOf(o) == KeyHeard(d) && MsrpKind(o.kind)
    ensures o.kind == Listener <==> d.kind == Listener
  {
    HeardParts(d, []);
  }

  lemma ListenerHasNoTalkerKey(p2p: bool, mid: Db, d: Dispatch, source: seq<byte>, id: id8)
    requires Valid(mid) && Sound(d) && !KeyHeard(d).TalkerKey?
    ensures Msrp.Has(mid.attribs, TalkerKey(id)) <==> Msrp.Has(Step(p2p, mid, InputOf(d, source)).attribs, TalkerKey(id))
  {
    hide Valid, Sound, KeyHeard, Step, InputOf, Find;
    ValueStep(p2p, mid, d, source, TalkerKey(id));
  }

  // ---------------------------------------------------------------- Where the Mt comes from

  ghost predicate NoneIgnored(ds: seq<Dispatch>) {
    forall x :: 0 <= x < |ds| ==> ds[x].Value? && ds[x].sub != 0
  }

  /** A substate of 0 is never dispatched. */
  lemma {:induction false} NoIgnored(items: seq<Item>, indices: seq<nat>)
    requires Sent(Listener, items, indices)
    ensures NoneIgnored(ValuesOf(Listener, items, indices))
  {
    hide ValueOf;
    if indices != [] {
      NoIgnored(items, indices[1..]);
      OneValue(items[indices[0]]);
      NoneOfBoth(ValueOf(Listener, items[indices[0]]), ValuesOf(Listener, items, indices[1..]));
    }
  }

  lemma NoneOfBoth(a: seq<Dispatch>, b: seq<Dispatch>)
    requires NoneIgnored(a) && NoneIgnored(b)
    ensures NoneIgnored(a + b)
  {
  }

  lemma OneValue(item: Item)
    requires |item.key| == KeyLength(Listener) && item.ev.Some?
    ensures NoneIgnored(ValueOf(Listener, item))
  {
  }

  lemma SpokenSubstate(s: seq<Attrib>, stop: nat, x: nat)
    requires CanSpeak(Listener, s, stop) && x < |Spoken(Listener, s, stop, false)|
    ensures var d := Spoken(Listener, s, stop, false)[x]; d.Value? && d.sub != 0
  {
    hide ValuesOf, SentIndices, Sent;
    var indices := SentIndices(Listener, ItemsOf(Listener, s), 0, stop);
    NoIgnored(ItemsOf(Listener, s), indices);
    assert Spoken(Listener, s, stop, false) == ValuesOf(Listener, ItemsOf(Listener, s), indices);
  }

  /** What a LeaveAll walk lets an attribute say that is not kept declared. */
  lemma NotKeptSaysMt(p2p: bool, a: Attrib, d: Dispatch)
    requires NotKept(a) && Sound(d) && Says(d, Walked(p2p, a, TxLa, None)) && (d.kind == Listener ==> d.sub != 0)
    ensures d.ev == EV_MT
  {
    hide NextApplicant, HeardTalker;
  }

  lemma EveryLeaveAll(s: seq<Attrib>, stops: seq<nat>, c: Kind)
    requires CleanList(s) && |stops| == 4 && CanSpeakAll(s, stops) && MsrpKind(c)
    ensures LeaveAll(c) in SpokenAll(s, stops, true)
  {
    hide CleanList, CanSpeak, SpokenAll, SpokenFrom;
    SpokenSplit(s, stops, 0);
    NothingSpoken(s, stops);
    TailFrom(s, stops, 0);
    TailLeaveAlls(s, SpokenFrom(s, stops, 0), 0, c);
  }

  lemma NothingSpoken(s: seq<Attrib>, stops: seq<nat>)
    requires CanSpeakAll(s, stops) && CanSpeakAll(s, stops[..0])
    ensures SpokenAll(s, stops[..0], true) == []
  {
  }

  /** A value in the frame: its type, its place among the type's values and the attribute behind it. */
  lemma Origin(s: seq<Attrib>, stops: seq<nat>, d: Dispatch) returns (m: nat, x: nat, i: nat)
    requires CleanList(s) && |stops| == 4 && CanSpeakAll(s, stops) && d in SpokenAll(s, stops, true) && d.Value?
    ensures m < 4 && CanSpeak(Order[m], s, stops[m]) && x < |Spoken(Order[m], s, stops[m], false)|
    ensures Spoken(Order[m], s, stops[m], false)[x] == d
    ensures i < |s| && Sound(d) && Says(d, s[i]) && s[i].kind == Order[m]
  {
    hide CleanList, SpokenAll, Spoken, Says, Sound, CanSpeak;
    m := SpokenOrigin(s, stops, true, d);
    OrderMsrp(m);
    SpeakAt(s, stops, m);
    CanSpeakFacts(Order[m], s, stops[m]);
    SpokenParts(Order[m], s, stops[m]);
    var ds := Spoken(Order[m], s, stops[m], false);
    assert d in ds;
    x :| 0 <= x < |ds| && ds[x] == d;
    i := OneKind(Order[m], s, stops[m], x);
  }

  /** The events around a value of the frame. */
  lemma SplitFrame(s: seq<Attrib>, stops: seq<nat>, m: nat, x: nat, i: nat, d: Dispatch)
    returns (before: seq<Dispatch>, after: seq<Dispatch>)
    requires CleanList(s) && UniqueKeys(s) && |stops| == 4 && CanSpeakAll(s, stops) && m < 4
    requires CanSpeak(Order[m], s, stops[m]) && x < |Spoken(Order[m], s, stops[m], false)|
    requires Spoken(Order[m], s, stops[m], false)[x] == d && i < |s| && Sound(d) && Says(d, s[i]) && s[i].kind == Order[m]
    ensures SpokenAll(s, stops, true) == before + [d] + after && Split(s, before, d, after, m)
  {
    hide CleanList, UniqueKeys, SpokenAll, Spoken, Says, Sound, CanSpeak, KeyOf, KeyHeard, NotAbout, FromTypes;
    OrderMsrp(m);
    OrderIs(m);
    SaysKey(d, s[i]);
    before, after := FrameAround(s, stops, i, x);
    SoundValue(d);
    forall c: Kind | MsrpKind(c) ensures LeaveAll(c) in before || LeaveAll(c) in after {
      EveryLeaveAll(s, stops, c);
      InThree(before, d, after, LeaveAll(c));
    }
  }

  lemma OrderIs(m: nat)
    requires m < 4
    ensures MsrpKind(Order[m]) && OrderOf(Order[m]) == m
  {
  }

  lemma InThree(a: seq<Dispatch>, d: Dispatch, c: seq<Dispatch>, e: Dispatch)
    requires e in a + [d] + c && e != d
    ensures e in a || e in c
  {
  }

  /** The one value about a key is the one that could tell news of it. */
  lemma OnlyNews(b: Db, known: seq<Attrib>, o: Attrib, before: seq<Dispatch>, d: Dispatch, after: seq<Dispatch>)
    requires Sound(d) && KeyHeard(d) == KeyOf(o) && NotAbout(before, KeyOf(o)) && NotAbout(after, KeyOf(o))
    ensures SomeNews(b, known, o, before + [d] + after) <==> TellsNews(b, known, o, d)
  {
    hide TellsNews, NotAbout, Sound, KeyHeard, KeyOf;
    var ds := before + [d] + after;
    assert ds[|before|] == d;
    NoNewsOutside(b, known, o, before);
    NoNewsOutside(b, known, o, after);
    forall x | 0 <= x < |ds| && x != |before| ensures !TellsNews(b, known, o, ds[x]) {
      if x < |before| {
        assert ds[x] == before[x];
      } else {
        assert ds[x] == after[x - |before| - 1];
      }
    }
  }

  lemma NoNewsOutside(b: Db, known: seq<Attrib>, o: Attrib, ds: seq<Dispatch>)
    requires NotAbout(ds, KeyOf(o))
    ensures forall x :: 0 <= x < |ds| ==> !TellsNews(b, known, o, ds[x])
  {
    hide KeyHeard, KeyOf, Wanted, Heard, BringsNews;
  }

  // ---------------------------------------------------------------- Two stations

  /** A key that no value of the frame is about. */
  lemma Unmentioned(s: seq<Attrib>, stops: seq<nat>, key: Key)
    requires CleanList(s) && |stops| == 4 && CanSpeakAll(s, stops)
    requires forall x :: 0 <= x < |SpokenAll(s, stops, true)| ==>
                           var d := SpokenAll(s, stops, true)[x]; Sound(d) ==> KeyHeard(d) != key
    ensures NotAbout(SpokenAll(s, stops, true), key)
  {
    hide CleanList, SpokenAll, CanSpeak, KeyHeard, Sound, Says;
    FrontFrom(s, stops);
    var ds := SpokenAll(s, stops, true);
    forall x | 0 <= x < |ds| ensures if ds[x].LeaveAll? then MsrpKind(ds[x].kind) else Sound(ds[x]) && KeyHeard(ds[x]) != key {
      assert FromOneOf(s, ds[x], 0, 4);
      var k :| 0 <= k < 4 && FromType(s, ds[x], k);
      OrderMsrp(k);
    }
  }

  /** The frame of any list, received by B, for a key that is registered there and of which the frame says at most Mt. */
  lemma FrameUnregisters(p2p: bool, station: Mvrp.mac, s: seq<Attrib>, b: Db, o: Attrib)
    requires UniqueKeys(s) && CleanList(s) && Valid(b) && TxPdu(station, s, true, true).Some?
    requires Get(b.attribs, KeyOf(o)) == Some(o) && o.reg.state == IN
    requires forall d :: d in ReceiveFrame(TxPdu(station, s, true, true).value).out && Sound(d) && KeyHeard(d) == KeyOf(o) ==> d.ev == EV_MT
    ensures var out := ReceiveFrame(TxPdu(station, s, true, true).value).out;
            var end := Deliver(p2p, b, TxPdu(station, s, true, true).value);
            var p := Get(end.attribs, KeyOf(o));
            && Valid(end)
            && (if SomeNews(b, end.attribs, o, out) then p.None? || p.value.reg.state == MT
                else p.Some? && p.value.reg.state == LV)
  {
    hide TxPdu, ReceiveFrame, BuildAll, SpokenAll, Feed, CleanList, UniqueKeys, Valid, Get, KeyOf, CanSpeakAll, CanSpeak;
    hide Spoken, Sound, Says, NotAbout, KeyHeard, SomeNews, Split, TellsNews;
    var frame := TxPdu(station, s, true, true).value;
    var source := if |frame| >= 12 then frame[6..12] else [];
    FrameRoundTrip(station, s, true);
    var stops := BuildAll(s, true, true).stops;
    HeldMsrp(b, KeyOf(o));
    var out := SpokenAll(s, stops, true);
    if x0 :| 0 <= x0 < |out| && Sound(out[x0]) && KeyHeard(out[x0]) == KeyOf(o) {
      var d := out[x0];
      SoundValue(d);
      var m, x, i := Origin(s, stops, d);
      var before, after := SplitFrame(s, stops, m, x, i, d);
      MtAmid(p2p, b, s, before, d, after, m, source, o);
      SplitKeys(s, before, d, after, m);
      OnlyNews(b, Feed(p2p, b, out, source).attribs, o, before, d, after);
    } else {
      Unmentioned(s, stops, KeyOf(o));
      FeedAround(p2p, b, out, source, KeyOf(o));
      EveryLeaveAll(s, stops, o.kind);
      NoSuchNews(b, Feed(p2p, b, out, source).attribs, o, out);
    }
  }

  lemma SplitKeys(s: seq<Attrib>, before: seq<Dispatch>, d: Dispatch, after: seq<Dispatch>, m: nat)
    requires Split(s, before, d, after, m)
    ensures NotAbout(before, KeyHeard(d)) && NotAbout(after, KeyHeard(d))
  {
    hide NotAbout, FromTypes, KeyHeard;
  }

  lemma NoSuchNews(b: Db, known: seq<Attrib>, o: Attrib, ds: seq<Dispatch>)
    requires NotAbout(ds, KeyOf(o))
    ensures !SomeNews(b, known, o, ds)
  {
    hide NotAbout, TellsNews;
    NoNewsOutside(b, known, o, ds);
  }

  /**
    Delivering A's LeaveAll frame: a key registered at B that A does not keep declared is leaving
    under a running leave timer, unless the frame has an Mt for it that brings news. Then its
    registration is gone at once, and with it the attribute if B's applicant is passive.
    `known` for a listener is whether B lists the stream's talker once the frame is in.
   */
  lemma UndeclaredLeaves(p2pA: bool, p2pB: bool, station: Mvrp.mac, a: Db, b: Db, o: Attrib)
    requires Valid(a) && Valid(b) && TxPdu(station, WalkedAll(p2pA, a.attribs, TxLa, None), true, true).Some?
    requires forall j :: 0 <= j < |a.attribs| && KeyOf(a.attribs[j]) == KeyOf(o) ==> NotKept(a.attribs[j])
    requires Get(b.attribs, KeyOf(o)) == Some(o) && o.reg.state == IN
    ensures var frame := TxPdu(station, WalkedAll(p2pA, a.attribs, TxLa, None), true, true).value;
            var end := Deliver(p2pB, b, frame);
            var p := Get(end.attribs, KeyOf(o));
            if SomeNews(b, end.attribs, o, ReceiveFrame(frame).out) then p.None? || p.value.reg.state == MT
            else p.Some? && p.value.reg.state == LV && end.lv
  {
    hide TxPdu, ReceiveFrame, Deliver, Valid, Get, KeyOf, Walked, CleanList, UniqueKeys, Sound, Says, KeyHeard, NotKept, SomeNews;
    var s := WalkedAll(p2pA, a.attribs, TxLa, None);
    SenderList(p2pA, a);
    var frame := TxPdu(station, s, true, true).value;
    forall d | d in ReceiveFrame(frame).out && Sound(d) && KeyHeard(d) == KeyOf(o) ensures d.Value? && d.ev == EV_MT {
      SoundValue(d);
      MtHeard(p2pA, station, a, o, d);
    }
    FrameUnregisters(p2pB, station, s, b, o);
    LeavingTimed(Deliver(p2pB, b, frame), KeyOf(o));
  }

  lemma MtHeard(p2pA: bool, station: Mvrp.mac, a: Db, o: Attrib, d: Dispatch)
    requires Valid(a) && TxPdu(station, WalkedAll(p2pA, a.attribs, TxLa, None), true, true).Some?
    requires forall j :: 0 <= j < |a.attribs| && KeyOf(a.attribs[j]) == KeyOf(o) ==> NotKept(a.attribs[j])
    requires d in ReceiveFrame(TxPdu(station, WalkedAll(p2pA, a.attribs, TxLa, None), true, true).value).out
    requires Sound(d) && KeyHeard(d) == KeyOf(o)
    ensures d.ev == EV_MT
  {
    hide TxPdu, ReceiveFrame, BuildAll, SpokenAll, Valid, KeyOf, Walked, CleanList, UniqueKeys, Sound, Says, KeyHeard, NotKept, CanSpeak, Spoken;
    var s := WalkedAll(p2pA, a.attribs, TxLa, None);
    SenderList(p2pA, a);
    FrameRoundTrip(station, s, true);
    var stops := BuildAll(s, true, true).stops;
    SoundValue(d);
    var m, x, i := Origin(s, stops, d);
    SaysKey(d, s[i]);
    assert s[i] == Walked(p2pA, a.attribs[i], TxLa, None);
    if d.kind == Listener {
      SpokenSubstate(s, stops[m], x);
    }
    NotKeptSaysMt(p2pA, a.attribs[i], d);
  }

  // ---------------------------------------------------------------- Two stations with different VIDs

  function ClassA(vlan: u16): Attrib {
    Fresh(Domain, NoTalker.streamId, []).(domain := SrDomain(6, 3, 3, vlan))
  }

  /** The list after a client's first Join for a domain. */
  lemma OwnDomainListed(p2p: bool, vlan: u16)
    ensures var run := [Apply(Join, ClassA(vlan))];
            var db := After(p2p, false, run);
            && PossibleRun(run) && Valid(db)
            && db.attribs == [Calmed(Handled(p2p, ClassA(vlan), Join))]
  {
    hide Valid, Handled;
    var r := ClassA(vlan);
    var run := [Apply(Join, r)];
    assert run[..0] == [];
    RunKeepsValid(p2p, false, run);
    assert Added([], r) == [r];
    JoinHandled(p2p, vlan);
    assert Touched(p2p, [r], 0, Join) == [Handled(p2p, r, Join)];
  }

  lemma JoinHandled(p2p: bool, vlan: u16)
    ensures var b := Handled(p2p, ClassA(vlan), Join);
            b.kind == Domain && b.domain == SrDomain(6, 3, 3, vlan) && b.app.state == VP && b.reg.state == IN && !Reclaimable(b)
  {
  }

  lemma JoinWalked(p2p: bool, a: Attrib)
    requires a.kind == Domain && a.app.state == VP && a.reg.state == IN
    ensures var w := Walked(p2p, a, TxLa, None);
            && w.kind == Domain && w.domain == a.domain && w.app.tx && !w.app.optional
            && Mvrp.EventCode(w.app.snd, w.reg.state) == Some(EV_MT)
  {
  }

  /** A LeaveAll frame with one domain: 13 bytes for it, and three empty LeaveAll messages. */
  lemma OneDomainFits(station: Mvrp.mac, w: seq<Attrib>)
    requires |w| == 1 && w[0].kind == Domain && w[0].app.tx && !w[0].app.optional
    requires Mvrp.EventCode(w[0].app.snd, w[0].reg.state).Some?
    ensures FrameHoldsAll(station, w, true)
  {
    hide FrameHoldsAll, KeyBytes, Mvrp.EventCode;
    OneDomainBytes(w, TalkerAdv);
    OneDomainBytes(w, TalkerFailed);
    OneDomainBytes(w, Listener);
    OneDomainBytes(w, Domain);
    hide MessageBytes;
    assert BytesBefore(0, w, true) == 0;
    assert BytesBefore(1, w, true) == 33;
    assert BytesBefore(2, w, true) == 75;
    assert BytesBefore(3, w, true) == 91;
    assert BytesBefore(4, w, true) == 104;
    FrameHoldsAllIff(station, w, true);
  }

  lemma OneDomainBytes(w: seq<Attrib>, kind: Kind)
    requires |w| == 1 && w[0].kind == Domain && w[0].app.tx && !w[0].app.optional && MsrpKind(kind)
    ensures MessageBytes(kind, w, true) == if kind == Domain then 13 else FirstLength(kind) as int + 8
  {
    hide KeyBytes, Mvrp.EventCode;
    var items := ItemsOf(kind, w);
    assert Leads(items[0]) <==> kind == Domain;
    assert FullSize(kind, items, 1) == 0;
    if kind == Domain {
      assert RunEnd(kind, items, 1) == 1;
      assert FullSize(kind, items, 0) == VectorLength(kind, 1);
    } else {
      assert FullSize(kind, items, 0) == 0;
    }
  }

  /** The one domain of such a frame is heard as an Mt with its VID. */
  lemma OneDomainHeard(station: Mvrp.mac, w: seq<Attrib>) returns (x: nat)
    requires |w| == 1 && w[0].kind == Domain && w[0].app.tx && !w[0].app.optional && CleanList(w)
    requires FrameHoldsAll(station, w, true) && TxPdu(station, w, true, true).Some?
    ensures var out := ReceiveFrame(TxPdu(station, w, true, true).value).out;
            x < |out| && Sound(out[x]) && Says(out[x], w[0])
  {
    hide TxPdu, ReceiveFrame, BuildAll, AllSent, CleanList, Says, Sound;
    FrameRoundTrip(station, w, true);
    var stops := BuildAll(w, true, true).stops;
    HoldsAllSent(station, w);
    AllSentReaches(w, stops, 0);
    var d := FrameTellsAll(station, w, true, 0);
    var out := ReceiveFrame(TxPdu(station, w, true, true).value).out;
    x :| 0 <= x < |out| && out[x] == d;
  }

  lemma HoldsAllSent(station: Mvrp.mac, s: seq<Attrib>)
    requires FrameHoldsAll(station, s, true) && BuildAll(s, true, true).Built?
    ensures AllSent(s, BuildAll(s, true, true).stops)
  {
    hide TxPdu, BuildAll, AllSent;
  }

  lemma OtherVidIsNews(b: Db, known: seq<Attrib>, o: Attrib, d: Dispatch, w: Attrib)
    requires Sound(d) && Says(d, w) && w.kind == Domain && o.kind == Domain && o.domain.classId == w.domain.classId
    requires o.domain.vlan != w.domain.vlan
    ensures TellsNews(b, known, o, d)
  {
  }

  /**
    A client of A declares a class with one VID, and B has heard the class with another from
    elsewhere. A's LeaveAll frame takes B's registration away at once, with no leave timer.
   */
  lemma OtherVidUnregisters(p2pA: bool, p2pB: bool, station: Mvrp.mac)
    ensures var runA, runB := [Apply(Join, ClassA(2))], [Apply(RJoinIn, ClassA(3))];
            var a, b := After(p2pA, false, runA), After(p2pB, false, runB);
            var w := WalkedAll(p2pA, a.attribs, TxLa, None);
            var o := Get(b.attribs, DomainKey(6));
            && PossibleRun(runA) && PossibleRun(runB) && TxPdu(station, w, true, true).Some?
            && o.Some? && o.value.reg.state == IN
            && var p := Get(Deliver(p2pB, b, TxPdu(station, w, true, true).value).attribs, DomainKey(6));
            p.None? || p.value.reg.state == MT
  {
    hide After, Handled, Valid, FrameHoldsAll, TxPdu, Deliver, Walked, Get, CleanList, UniqueKeys, Step, TellsNews, ReceiveFrame, Says, Sound;
    OwnDomainListed(p2pA, 2);
    JoinHandled(p2pA, 2);
    var a := After(p2pA, false, [Apply(Join, ClassA(2))]);
    var w := WalkedAll(p2pA, a.attribs, TxLa, None);
    JoinWalked(p2pA, a.attribs[0]);
    OneDomainFits(station, w);
    HoldsSent(station, w);
    SenderList(p2pA, a);
    FirstRegistered(p2pB, false, RJoinIn, ClassA(3));
    OneInput(p2pB, Apply(RJoinIn, ClassA(3)));
    var b := After(p2pB, false, [Apply(RJoinIn, ClassA(3))]);
    var o := Get(b.attribs, DomainKey(6)).value;
    var x := OneDomainHeard(station, w);
    var frame := TxPdu(station, w, true, true).value;
    OtherVidIsNews(b, Deliver(p2pB, b, frame).attribs, o, ReceiveFrame(frame).out[x], w[0]);
    UndeclaredLeaves(p2pA, p2pB, station, a, b, o);
  }

  lemma OneInput(p2p: bool, x: Input)
    ensures After(p2p, false, [x]) == Step(p2p, InitialDb(false), x)
  {
    hide Step;
    assert [x][..0] == [];
  }
}
