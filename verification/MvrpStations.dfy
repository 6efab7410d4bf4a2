/**
  Two MVRP stations: the frame one builds from its list, delivered to the other's receiver,
  list and registrars.
 */
module MvrpStations {
  import opened Mrp
  import opened Mrpdu
  import opened MrpduParse
  import opened Emission
  import opened EmissionMeaning
  import opened EmissionFits
  import opened Mvrp
  import opened MvrpPerVid
  import opened MvrpRuns
  import opened MvrpTimers
  import opened MvrpFrames

  // ---------------------------------------------------------------- Delivery

  function RxEvent(ev: event): Event {
    if ev == EV_NEW then RNew
    else if ev == EV_JOININ then RJoinIn
    else if ev == EV_IN then RIn
    else if ev == EV_JOINMT then RJoinMt
    else if ev == EV_MT then RMt
    else RLv
  }

  /** MVRP first values are the two bytes of a VID. */
  function KeyVid(key: seq<byte>): vid {
    if |key| == 2 then VidOf(key) else 0
  }

  function InputOf(d: Dispatch, source: seq<byte>): Input {
    match d
    case LeaveAll(_) => LeaveAllHeard
    case Value(_, key, ev, _) => Apply(RxEvent(ev), KeyVid(key), source)
  }

  function Feed(p2p: bool, station: mac, db: Db, ds: seq<Dispatch>, source: seq<byte>): Db
    decreases |ds|
  {
    if ds == [] then db
    else Feed(p2p, station, Step(p2p, station, db, InputOf(ds[0], source)).db, ds[1..], source)
  }

  /** A station receives a frame: every dispatched event is processed in order. */
  function Deliver(p2p: bool, station: mac, db: Db, frame: seq<byte>): Db {
    Feed(p2p, station, db, ReceiveFrame(frame).out, if |frame| >= 12 then frame[6..12] else [])
  }

  // ---------------------------------------------------------------- Which values a list sends

  function ValueFor(a: Attrib): Dispatch
    requires EventCode(a.app.snd, a.reg.state).Some?
  {
    Value(Vid, VidBytes(a.vid), EventCode(a.app.snd, a.reg.state).value, 0)
  }

  ghost predicate Encodable(s: seq<Attrib>) {
    forall i :: 0 <= i < |s| ==> EventCode(s[i].app.snd, s[i].reg.state).Some?
  }

  lemma ValueOfAttrib(a: Attrib)
    requires EventCode(a.app.snd, a.reg.state).Some?
    ensures ValueOf(Vid, ItemOf(a)) == if a.vid <= 0xFFF then [ValueFor(a)] else []
  {
    VidKeys(a.vid);
    assert ItemOf(a).key[..2] == VidBytes(a.vid);
  }

  lemma {:induction false} ValueOrigin(s: seq<Attrib>, indices: seq<nat>, k: nat) returns (j: nat)
    requires Encodable(s) && Sent(Vid, ItemsOf(s), indices) && k < |ValuesOf(Vid, ItemsOf(s), indices)|
    ensures j in indices && j < |s| && s[j].vid <= 0xFFF && ValuesOf(Vid, ItemsOf(s), indices)[k] == ValueFor(s[j])
  {
    hide EventCode, ValueOf;
    ValueOfAttrib(s[indices[0]]);
    var head := ValueOf(Vid, ItemsOf(s)[indices[0]]);
    if k < |head| {
      j := indices[0];
    } else {
      j := ValueOrigin(s, indices[1..], k - |head|);
    }
  }

  lemma {:induction false} ValuePresent(s: seq<Attrib>, indices: seq<nat>, j: nat)
    requires Encodable(s) && Sent(Vid, ItemsOf(s), indices) && j in indices && s[j].vid <= 0xFFF
    ensures ValueFor(s[j]) in ValuesOf(Vid, ItemsOf(s), indices)
  {
    hide EventCode, ValueOf;
    ValueOfAttrib(s[indices[0]]);
    if j != indices[0] {
      ValuePresent(s, indices[1..], j);
    } else {
      assert [ValueFor(s[j])][0] == ValueFor(s[j]);
    }
  }

  lemma {:induction false} ValuesAscend(s: seq<Attrib>, indices: seq<nat>, x: nat, y: nat)
    requires Encodable(s) && Sorted(s) && Sent(Vid, ItemsOf(s), indices) && Increasing(indices)
    requires x < y < |ValuesOf(Vid, ItemsOf(s), indices)|
    ensures var ds := ValuesOf(Vid, ItemsOf(s), indices);
            ds[x].Value? && ds[y].Value? && KeyVid(ds[x].key) < KeyVid(ds[y].key)
  {
    hide EventCode, ValueOf;
    var i0, tail := indices[0], indices[1..];
    ValueOfAttrib(s[i0]);
    var head := ValueOf(Vid, ItemsOf(s)[i0]);
    if x < |head| {
      var j := ValueOrigin(s, tail, y - |head|);
      assert i0 < j;
      VidKeys(s[i0].vid);
      VidKeys(s[j].vid);
    } else {
      ValuesAscend(s, tail, x - |head|, y - |head|);
    }
  }

  // ---------------------------------------------------------------- Feeding values

  lemma StepOther(p2p: bool, station: mac, db: Db, d: Dispatch, source: seq<byte>, v: vid)
    requires Valid(db) && d.Value? && KeyVid(d.key) != v
    ensures var out := Step(p2p, station, db, InputOf(d, source)).db;
            Valid(out) && Lookup(out.attribs, v) == Lookup(db.attribs, v)
  {
    hide Step, Handled, Valid;
    StepPerVid(p2p, station, db, InputOf(d, source), v);
    ValidCalm(db, v);
  }

  lemma {:induction false} FeedMiss(p2p: bool, station: mac, db: Db, ds: seq<Dispatch>, source: seq<byte>, v: vid)
    requires Valid(db) && forall k :: 0 <= k < |ds| ==> ds[k].Value? && KeyVid(ds[k].key) != v
    ensures var out := Feed(p2p, station, db, ds, source);
            Valid(out) && Lookup(out.attribs, v) == Lookup(db.attribs, v)
    decreases |ds|
  {
    hide Step, Valid, InputOf;
    if ds != [] {
      StepOther(p2p, station, db, ds[0], source, v);
      FeedMiss(p2p, station, Step(p2p, station, db, InputOf(ds[0], source)).db, ds[1..], source, v);
    }
  }

  lemma StepRegisters(p2p: bool, station: mac, db: Db, d: Dispatch, source: seq<byte>, v: vid)
    requires Valid(db) && d.Value? && KeyVid(d.key) == v && d.ev in {EV_NEW, EV_JOININ, EV_JOINMT}
    ensures var out := Step(p2p, station, db, InputOf(d, source)).db;
            Valid(out) && RegistrarOf(Lookup(out.attribs, v)) == IN
  {
    hide Step, Valid, NextApplicant, Announcement;
    StepPerVid(p2p, station, db, InputOf(d, source), v);
  }

  lemma StepValid(p2p: bool, station: mac, db: Db, d: Dispatch, source: seq<byte>)
    requires Valid(db)
    ensures Valid(Step(p2p, station, db, InputOf(d, source)).db)
  {
    hide Step, Valid, VidStep, VidNote;
    StepPerVid(p2p, station, db, InputOf(d, source), 0);
  }

  /** A New or Join for `v` that nothing later about `v` follows leaves its registrar IN. */
  lemma {:induction false} FeedRegisters(p2p: bool, station: mac, db: Db, ds: seq<Dispatch>, source: seq<byte>, v: vid, k: nat)
    requires Valid(db) && k < |ds|
    requires ds[k].Value? && KeyVid(ds[k].key) == v && ds[k].ev in {EV_NEW, EV_JOININ, EV_JOINMT}
    requires forall m :: k < m < |ds| ==> ds[m].Value? && KeyVid(ds[m].key) != v
    ensures RegistrarOf(Lookup(Feed(p2p, station, db, ds, source).attribs, v)) == IN
    decreases |ds|
  {
    hide Step, Valid, InputOf, RegistrarOf, KeyVid;
    var next := Step(p2p, station, db, InputOf(ds[0], source)).db;
    if k == 0 {
      StepRegisters(p2p, station, db, ds[0], source, v);
      FeedMiss(p2p, station, next, ds[1..], source, v);
    } else {
      StepValid(p2p, station, db, ds[0], source);
      FeedRegisters(p2p, station, next, ds[1..], source, v, k - 1);
    }
  }

  lemma StepKeepsLeaving(p2p: bool, station: mac, db: Db, d: Dispatch, source: seq<byte>, v: vid)
    requires Valid(db) && d.Value? && RegistrarOf(Lookup(db.attribs, v)) == LV && db.lv
    requires KeyVid(d.key) == v ==> d.ev == EV_MT
    ensures var out := Step(p2p, station, db, InputOf(d, source)).db;
            Valid(out) && RegistrarOf(Lookup(out.attribs, v)) == LV && out.lv
  {
    hide Step, Valid, NextApplicant, Announcement;
    StepPerVid(p2p, station, db, InputOf(d, source), v);
    LvStays(p2p, station, db, InputOf(d, source));
  }

  lemma {:induction false} FeedKeepsLeaving(p2p: bool, station: mac, db: Db, ds: seq<Dispatch>, source: seq<byte>, v: vid)
    requires Valid(db) && RegistrarOf(Lookup(db.attribs, v)) == LV && db.lv
    requires forall k :: 0 <= k < |ds| ==> ds[k].Value? && (KeyVid(ds[k].key) == v ==> ds[k].ev == EV_MT)
    ensures var out := Feed(p2p, station, db, ds, source);
            RegistrarOf(Lookup(out.attribs, v)) == LV && out.lv
    decreases |ds|
  {
    hide Step, Valid, InputOf, RegistrarOf, KeyVid;
    if ds != [] {
      StepKeepsLeaving(p2p, station, db, ds[0], source, v);
      FeedKeepsLeaving(p2p, station, Step(p2p, station, db, InputOf(ds[0], source)).db, ds[1..], source, v);
    }
  }

  // ---------------------------------------------------------------- What a transmit walk sends

  lemma WalkedForTx(p2p: bool, a: Attrib, e: Event)
    requires e in {Tx, TxLa}
    ensures var w := Walked(p2p, a, e);
            && w.vid == a.vid && w.app.tx && EventCode(w.app.snd, w.reg.state).Some?
            && Some((w.app.snd, w.app.optional)) == Announcement(a.app.state, e)
            && w.reg.state == (if e == TxLa && a.reg.state == IN then LV else a.reg.state)
  {
    hide NextApplicant;
  }

  lemma WalkedEncodable(p2p: bool, s: seq<Attrib>, e: Event)
    requires e in {Tx, TxLa}
    ensures var w := WalkedAll(p2p, s, e); Encodable(w) && Sendable(ItemsOf(w), 0, |w|)
    ensures Sorted(s) ==> Sorted(WalkedAll(p2p, s, e))
  {
    hide Walked, EventCode;
    WalkKeepsVids(p2p, s, e);
    forall i | 0 <= i < |s| ensures EventCode(WalkedAll(p2p, s, e)[i].app.snd, WalkedAll(p2p, s, e)[i].reg.state).Some? {
      WalkedForTx(p2p, s[i], e);
    }
  }

  /** Everything due in `walked` is in the frame, in the order and with the events of the list. */
  ghost predicate Transmits(walked: seq<Attrib>, lva: bool, indices: seq<nat>, ds: seq<Dispatch>) {
    && Encodable(walked) && Sorted(walked) && Sent(Vid, ItemsOf(walked), indices)
    && Increasing(indices)
    && (forall j :: 0 <= j < |walked| && Leads(ItemOf(walked[j])) ==> j in indices)
    && ds == (if lva then [LeaveAll(Vid)] else []) + ValuesOf(Vid, ItemsOf(walked), indices)
  }

  lemma FrameTransmits(p2p: bool, station: mac, s: seq<Attrib>, e: Event, lva: bool)
    requires Sorted(s) && e in {Tx, TxLa}
    requires var w := WalkedAll(p2p, s, e); DueBytes(w) + 6 < ROOM && (DueBytes(w) > 0 || lva)
    ensures var w := WalkedAll(p2p, s, e);
            && TxPdu(station, w, lva, lva).Some?
            && exists indices :: Transmits(w, lva, indices, ReceiveFrame(TxPdu(station, w, lva, lva).value).out)
  {
    hide EmitMessage, ReceiveFrame, WalkedAll, SentIndices, ValuesOf, Leads, DueBytes, TxPdu, Sendable, Sent, Sorted, Encodable;
    var w := WalkedAll(p2p, s, e);
    WalkedEncodable(p2p, s, e);
    FrameHoldsAllIff(station, w, lva, lva);
    FrameRoundTrip(station, w, lva, lva);
    var stop :| Stops(w, lva, lva, stop)
                && ReceiveFrame(TxPdu(station, w, lva, lva).value).out
                   == (if lva then [LeaveAll(Vid)] else []) + SentValues(w, stop);
    SentExactly(Vid, ItemsOf(w), 0, stop);
    var indices := SentIndices(Vid, ItemsOf(w), 0, stop);
    forall j | 0 <= j < |w| && Leads(ItemOf(w[j])) ensures j in indices {
      assert ItemsOf(w)[j] == ItemOf(w[j]);
    }
    assert Transmits(w, lva, indices, ReceiveFrame(TxPdu(station, w, lva, lva).value).out);
  }

  /** The value of a due VID has a place in the dispatched events, and it is the only one for that VID. */
  lemma DueIsDispatched(walked: seq<Attrib>, lva: bool, indices: seq<nat>, ds: seq<Dispatch>, j: nat) returns (k: nat)
    requires Transmits(walked, lva, indices, ds) && j < |walked| && Leads(ItemOf(walked[j])) && walked[j].vid <= 0xFFF
    ensures k < |ds| && ds[k] == ValueFor(walked[j])
    ensures forall m :: k < m < |ds| ==> ds[m].Value? && KeyVid(ds[m].key) != walked[j].vid
  {
    hide ValuesOf, Leads, EventCode, Sorted, Sent;
    var values := ValuesOf(Vid, ItemsOf(walked), indices);
    var head := if lva then [LeaveAll(Vid)] else [];
    ValuePresent(walked, indices, j);
    var x :| 0 <= x < |values| && values[x] == ValueFor(walked[j]);
    VidKeys(walked[j].vid);
    k := |head| + x;
    forall m | k < m < |ds| ensures ds[m].Value? && KeyVid(ds[m].key) != walked[j].vid {
      assert ds[m] == values[m - |head|];
      ValuesAscend(walked, indices, x, m - |head|);
    }
  }

  lemma IndexOf(s: seq<Attrib>, v: vid) returns (j: nat)
    requires Lookup(s, v).Some?
    ensures j < |s| && s[j] == Lookup(s, v).value && s[j].vid == v
  {
    LookupFound(s, v);
    var i :| 0 <= i < |s| && s[i] == Lookup(s, v).value;
    j := i;
  }

  predicate FitsFrame(p2p: bool, s: seq<Attrib>, e: Event) {
    DueBytes(WalkedAll(p2p, s, e)) + 6 < ROOM
  }

  lemma {:induction false} LeadIsDue(kind: Kind, items: seq<Item>, i: nat, j: nat)
    requires i <= j < |items| && Keyed(kind, items) && Leads(items[j])
    ensures FullSize(kind, items, i) > 0
    decreases |items| - i
  {
    hide NextKey, Extends;
    if !Leads(items[i]) {
      LeadIsDue(kind, items, i + 1, j);
    }
  }

  /** A walked attribute that must be announced registers at the receiver. */
  lemma AnnouncedRegisters(p2p: bool, station: mac, b: Db, walked: seq<Attrib>, lva: bool, indices: seq<nat>,
                           ds: seq<Dispatch>, source: seq<byte>, j: nat)
    requires Valid(b) && Transmits(walked, lva, indices, ds) && j < |walked| && walked[j].vid <= 0xFFF
    requires Leads(ItemOf(walked[j])) && walked[j].app.snd in {SndNew, SndJoin}
    ensures RegistrarOf(Lookup(Feed(p2p, station, b, ds, source).attribs, walked[j].vid)) == IN
  {
    hide Feed, Transmits, Leads, RegistrarOf, Valid, Lookup;
    var k := DueIsDispatched(walked, lva, indices, ds, j);
    VidKeys(walked[j].vid);
    FeedRegisters(p2p, station, b, ds, source, walked[j].vid, k);
  }

  /**
    When a frame that fits goes from A to B at a transmit opportunity, every VID (up to 0xFFF)
    that A had in VP, VN, AN, AP or AA is registered at B afterwards, whatever B's state was.
   */
  lemma TwoStationRegistration(p2pA: bool, a: Db, stationA: mac, p2pB: bool, b: Db, stationB: mac, v: vid)
    requires Valid(a) && Valid(b) && FitsFrame(p2pA, a.attribs, Tx)
    requires v <= 0xFFF && Lookup(a.attribs, v).Some?
    requires Lookup(a.attribs, v).value.app.state in {VP, VN, AN, AP, AA}
    ensures var frame := Step(p2pA, stationA, a, TxTick).frame;
            && frame.Some?
            && RegistrarOf(Lookup(Deliver(p2pB, stationB, b, frame.value).attribs, v)) == IN
  {
    hide WalkedAll, TxPdu, ReceiveFrame, Feed, Lookup, Transmits, RegistrarOf, Walked, EventCode, SettledAll, CalmedAll, NotesOf, FullSize, VidBytes;
    var w := WalkedAll(p2pA, a.attribs, Tx);
    var j := IndexOf(a.attribs, v);
    WalkedAt(p2pA, a.attribs, Tx, j);
    WalkedForTx(p2pA, a.attribs[j], Tx);
    assert Leads(ItemOf(w[j]));
    assert ItemsOf(w)[j] == ItemOf(w[j]);
    LeadIsDue(Vid, ItemsOf(w), 0, j);
    FrameTransmits(p2pA, stationA, a.attribs, Tx, false);
    var frame := TxPdu(stationA, w, false, false).value;
    var indices :| Transmits(w, false, indices, ReceiveFrame(frame).out);
    AnnouncedRegisters(p2pB, stationB, b, w, false, indices, ReceiveFrame(frame).out,
                       if |frame| >= 12 then frame[6..12] else [], j);
  }

  lemma WalkedAt(p2p: bool, s: seq<Attrib>, e: Event, j: nat)
    requires j < |s|
    ensures WalkedAll(p2p, s, e)[j] == Walked(p2p, s[j], e)
  {
  }

  // ---------------------------------------------------------------- LeaveAll

  lemma LeaveAllStep(p2p: bool, station: mac, db: Db, v: vid)
    requires Valid(db)
    ensures var out := Step(p2p, station, db, LeaveAllHeard).db;
            && Valid(out)
            && (RegistrarOf(Lookup(db.attribs, v)) == IN ==> RegistrarOf(Lookup(out.attribs, v)) == LV && out.lv)
  {
    hide Valid, NextApplicant, Announcement, Step;
    StepPerVid(p2p, station, db, LeaveAllHeard, v);
    if RegistrarOf(Lookup(db.attribs, v)) == IN {
      LeavingStep(p2p, station, db, LeaveAllHeard, v);
    }
  }

  /** No value dispatched for a VID that A does not announce says more than Mt. */
  lemma UnannouncedSaysMt(p2p: bool, s: seq<Attrib>, indices: seq<nat>, ds: seq<Dispatch>, v: vid, k: nat)
    requires Sorted(s) && Transmits(WalkedAll(p2p, s, TxLa), true, indices, ds) && 0 < k < |ds|
    requires v > 0xFFF || Lookup(s, v).None? || Lookup(s, v).value.app.state !in {VN, AN, AA, QA, AP, QP}
    ensures ds[k].Value? && (KeyVid(ds[k].key) == v ==> ds[k].ev == EV_MT)
  {
    hide ValuesOf, Walked, WalkedAll, Lookup, VidBytes, Sent, Sorted;
    var w := WalkedAll(p2p, s, TxLa);
    var values := ValuesOf(Vid, ItemsOf(w), indices);
    assert ds[k] == values[k - 1];
    var j := ValueOrigin(w, indices, k - 1);
    VidKeys(w[j].vid);
    WalkedAt(p2p, s, TxLa, j);
    WalkedForTx(p2p, s[j], TxLa);
    if w[j].vid == v {
      LookupAt(s, j);
    }
  }

  /**
    Delivering A's LeaveAll frame, if it fits: B dispatches exactly one LeaveAll, first. Every
    VID A had in VN, AN, AA, QA, AP or QP is registered at B afterwards, and every other VID
    that was registered at B is leaving, with B's leave timer running.
   */
  lemma LeaveAllSafety(p2pA: bool, a: Db, stationA: mac, p2pB: bool, b: Db, stationB: mac, v: vid)
    requires Valid(a) && Valid(b) && FitsFrame(p2pA, a.attribs, TxLa)
    ensures var frame := Step(p2pA, stationA, a, LvaTick).frame;
            && frame.Some?
            && var out := ReceiveFrame(frame.value).out;
            && out != [] && out[0] == LeaveAll(Vid) && (forall k :: 0 < k < |out| ==> out[k].Value?)
            && var o := Lookup(a.attribs, v);
            && var after := Deliver(p2pB, stationB, b, frame.value);
            && (v <= 0xFFF && o.Some? && o.value.app.state in {VN, AN, AA, QA, AP, QP} ==>
                  RegistrarOf(Lookup(after.attribs, v)) == IN)
            && (!(v <= 0xFFF && o.Some? && o.value.app.state in {VN, AN, AA, QA, AP, QP})
                && RegistrarOf(Lookup(b.attribs, v)) == IN ==>
                  RegistrarOf(Lookup(after.attribs, v)) == LV && after.lv)
  {
    hide WalkedAll, TxPdu, ReceiveFrame, Feed, Lookup, Transmits, RegistrarOf, Walked, EventCode, SettledAll, CalmedAll, NotesOf, FullSize, VidBytes, Valid;
    var w := WalkedAll(p2pA, a.attribs, TxLa);
    ValidSorted(a);
    FrameTransmits(p2pA, stationA, a.attribs, TxLa, true);
    var frame := TxPdu(stationA, w, true, true).value;
    assert Step(p2pA, stationA, a, LvaTick).frame == Some(frame);
    var ds := ReceiveFrame(frame).out;
    var indices :| Transmits(w, true, indices, ds);
    var source := if |frame| >= 12 then frame[6..12] else [];
    LeaveAllFirst(w, indices, ds);
    var o := Lookup(a.attribs, v);
    if v <= 0xFFF && o.Some? && o.value.app.state in {VN, AN, AA, QA, AP, QP} {
      var j := IndexOf(a.attribs, v);
      WalkedAt(p2pA, a.attribs, TxLa, j);
      WalkedForTx(p2pA, a.attribs[j], TxLa);
      AnnouncedRegisters(p2pB, stationB, b, w, true, indices, ds, source, j);
    } else if RegistrarOf(Lookup(b.attribs, v)) == IN {
      LeaveAllStep(p2pB, stationB, b, v);
      var heard := Step(p2pB, stationB, b, LeaveAllHeard).db;
      forall k | 0 <= k < |ds[1..]| ensures ds[1..][k].Value? && (KeyVid(ds[1..][k].key) == v ==> ds[1..][k].ev == EV_MT) {
        UnannouncedSaysMt(p2pA, a.attribs, indices, ds, v, k + 1);
      }
      FeedKeepsLeaving(p2pB, stationB, heard, ds[1..], source, v);
      FeedFirst(p2pB, stationB, b, ds, source);
    }
  }

  lemma ValidSorted(db: Db)
    requires Valid(db)
    ensures Sorted(db.attribs)
  {
  }

  lemma LeaveAllFirst(walked: seq<Attrib>, indices: seq<nat>, ds: seq<Dispatch>)
    requires Transmits(walked, true, indices, ds)
    ensures ds != [] && ds[0] == LeaveAll(Vid) && forall k :: 0 < k < |ds| ==> ds[k].Value?
  {
    hide ValuesOf;
    var values := ValuesOf(Vid, ItemsOf(walked), indices);
    forall k | 0 < k < |ds| ensures ds[k].Value? {
      var j := ValueOrigin(walked, indices, k - 1);
    }
  }

  lemma FeedFirst(p2p: bool, station: mac, db: Db, ds: seq<Dispatch>, source: seq<byte>)
    requires ds != [] && ds[0] == LeaveAll(Vid)
    ensures Feed(p2p, station, db, ds, source) == Feed(p2p, station, Step(p2p, station, db, LeaveAllHeard).db, ds[1..], source)
  {
    hide Step;
  }

  // ---------------------------------------------------------------- Only declarations are announced

  lemma AnnouncesWhatIsDeclared(p2p: bool, a: Attrib, e: Event)
    requires e in {Tx, TxLa}
    ensures var w := Walked(p2p, a, e);
            && EventCode(w.app.snd, w.reg.state).Some?
            && var ev := EventCode(w.app.snd, w.reg.state).value;
            && (ev in {EV_NEW, EV_JOININ, EV_JOINMT} ==> DeclaredState(a.app.state))
            && (ev == EV_LV ==> !DeclaredState(a.app.state))
  {
    hide NextApplicant;
  }

  /**
    In every run, a frame sent at the next transmit opportunity or LeaveAll says New or Join
    only of VIDs whose last client command was New or Join, and Lv only of withdrawn ones.
   */
  lemma OnlyDeclaredAnnounced(p2p: bool, station: mac, run: seq<Input>, input: Input, k: nat)
    requires PossibleRun(run) && input in {TxTick, LvaTick}
    requires var frame := Step(p2p, station, After(p2p, station, run), input).frame;
             frame.Some? && k < |ReceiveFrame(frame.value).out|
    ensures var d := ReceiveFrame(Step(p2p, station, After(p2p, station, run), input).frame.value).out[k];
            d.Value? ==>
              && (d.ev in {EV_NEW, EV_JOININ, EV_JOINMT} ==> KeyVid(d.key) in Declared(run))
              && (d.ev == EV_LV ==> KeyVid(d.key) !in Declared(run))
  {
    hide WalkedAll, ReceiveFrame, TxPdu, Walked, EventCode, Declared, DeclaredState, After, SettledAll, CalmedAll, NotesOf, VidBytes, ValuesOf, SentIndices, Sent, Encodable, Valid, Lookup;
    var db := After(p2p, station, run);
    RunPerVid(p2p, station, run, 0);
    ValidSorted(db);
    ValidPassive(db);
    var e, lva := if input.TxTick? then Tx else TxLa, input.LvaTick?;
    var w := WalkedAll(p2p, db.attribs, e);
    WalkedEncodable(p2p, db.attribs, e);
    assert Step(p2p, station, db, input).frame == TxPdu(station, w, lva, lva);
    FrameRoundTrip(station, w, lva, lva);
    var out := ReceiveFrame(TxPdu(station, w, lva, lva).value).out;
    var stop :| Stops(w, lva, lva, stop) && out == (if lva then [LeaveAll(Vid)] else []) + SentValues(w, stop);
    var d := out[k];
    if d.Value? {
      var x := if lva then k - 1 else k;
      assert d == SentValues(w, stop)[x];
      var j := ValueOrigin(w, SentIndices(Vid, ItemsOf(w), 0, stop), x);
      VidKeys(w[j].vid);
      WalkKeepsVids(p2p, db.attribs, e);
      WalkedAt(p2p, db.attribs, e, j);
      AnnouncesWhatIsDeclared(p2p, db.attribs[j], e);
      LookupAt(db.attribs, j);
      DeclaredExactly(p2p, station, run, db.attribs[j].vid);
    }
  }

  lemma ValidPassive(db: Db)
    requires Valid(db)
    ensures !db.machine.tx
  {
  }
}
