/**
  MSRP attributes as bytes: the first values the emitters write and the records the receiver
  builds from them.
 */
module MsrpWire {
  import opened Mrp
  import opened Mrpdu
  import opened MrpduParse
  import opened Emission
  import opened EmissionMeaning
  import Mvrp
  import MvrpStations
  import opened Msrp
  import opened MsrpRuns
  import opened MsrpKeys

  // ---------------------------------------------------------------- Talker records

  function Long(n: u32): (r: seq<byte>)
    ensures |r| == 4
  {
    [n / 0x100_0000, n / 0x1_0000 % 256, n / 256 % 256, n % 256]
  }

  /** The record as the talker emitter lays it out; a Talker Advertise stops after 25 bytes. */
  function TalkerBytes(t: Talker): (r: seq<byte>)
    ensures |r| == 34
  {
    t.streamId + t.dest + Word(t.vlan) + Word(t.maxFrame) + Word(t.maxInterval) + [t.priority] + Long(t.latency)
    + t.bridge + [t.code]
  }

  function WordOf(b: seq<byte>, i: nat): u16
    requires i + 1 < |b|
  {
    b[i] as int * 256 + b[i + 1]
  }

  function LongOf(b: seq<byte>, i: nat): u32
    requires i + 3 < |b|
  {
    ((b[i] as int * 256 + b[i + 1]) * 256 + b[i + 2]) * 256 + b[i + 3]
  }

  /** The record the talker receiver builds, byte by byte. */
  function TalkerOf(b: seq<byte>): Talker
    requires |b| == 34
  {
    Talker(b[0..8], b[8..14], WordOf(b, 14), WordOf(b, 16), WordOf(b, 18), b[20], LongOf(b, 21), b[25..33], b[33])
  }

  lemma LongRead(n: u32)
    ensures LongOf(Long(n), 0) == n
  {
    var a, b := n / 0x1_0000, n / 256;
    assert n / 0x100_0000 == a / 256 && a == b / 256;
  }

  lemma LongWritten(b: seq<byte>, i: nat)
    requires i + 3 < |b|
    ensures Long(LongOf(b, i)) == b[i..i + 4]
  {
    var x := b[i] as int * 256 + b[i + 1];
    var y := x * 256 + b[i + 2];
    assert LongOf(b, i) == y * 256 + b[i + 3];
    assert LongOf(b, i) / 256 == y && y / 256 == x && x / 256 == b[i];
    assert LongOf(b, i) / 0x1_0000 == x && LongOf(b, i) / 0x100_0000 == b[i];
  }

  /** Field boundaries of the 34 bytes. */
  lemma TalkerFields(t: Talker)
    ensures var b := TalkerBytes(t);
            && b[0..8] == t.streamId && b[8..14] == t.dest
            && b[14..16] == Word(t.vlan) && b[16..18] == Word(t.maxFrame) && b[18..20] == Word(t.maxInterval)
            && b[20] == t.priority && b[21..25] == Long(t.latency) && b[25..33] == t.bridge && b[33] == t.code
  {
    hide Word, Long;
  }

  lemma LongMoved(b: seq<byte>, i: nat, s: seq<byte>)
    requires i + 3 < |b| && |s| == 4 && b[i..i + 4] == s
    ensures LongOf(b, i) == LongOf(s, 0)
  {
    assert b[i..i + 4][0] == s[0] && b[i..i + 4][1] == s[1] && b[i..i + 4][2] == s[2] && b[i..i + 4][3] == s[3];
  }

  lemma WordMoved(b: seq<byte>, i: nat, n: u16)
    requires i + 1 < |b| && b[i..i + 2] == Word(n)
    ensures WordOf(b, i) == n
  {
    assert b[i..i + 2][0] == n / 256 && b[i..i + 2][1] == n % 256;
  }

  /** Every talker record survives the wire. */
  lemma TalkerRoundTrip(t: Talker)
    ensures TalkerOf(TalkerBytes(t)) == t
  {
    hide Word, Long, LongOf, WordOf, TalkerBytes;
    var b := TalkerBytes(t);
    TalkerFields(t);
    WordMoved(b, 14, t.vlan);
    WordMoved(b, 16, t.maxFrame);
    WordMoved(b, 18, t.maxInterval);
    LongMoved(b, 21, Long(t.latency));
    LongRead(t.latency);
  }

  lemma WordWritten(b: seq<byte>, i: nat)
    requires i + 1 < |b|
    ensures Word(WordOf(b, i)) == b[i..i + 2]
  {
  }

  lemma Joined(b: seq<byte>)
    requires |b| == 34
    ensures b[0..8] + b[8..14] + b[14..16] + b[16..18] + b[18..20] + [b[20]] + b[21..25] + b[25..33] + [b[33]] == b
  {
  }

  /** Every 34 bytes are some talker record's, so records and first values match one to one. */
  lemma TalkerBytesRoundTrip(b: seq<byte>)
    requires |b| == 34
    ensures TalkerBytes(TalkerOf(b)) == b
  {
    hide Word, Long, LongOf, WordOf;
    WordWritten(b, 14);
    WordWritten(b, 16);
    WordWritten(b, 18);
    LongWritten(b, 21);
    Joined(b);
  }

  // ---------------------------------------------------------------- Attributes as emitters see them

  /** The bytes an emitter for `kind` compares and sends for an attribute of that kind. */
  function KeyBytes(kind: Kind, a: Attrib): (r: seq<byte>)
    requires MsrpKind(kind)
    ensures |r| == KeyLength(kind)
  {
    if kind == Listener then a.talker.streamId
    else if kind == Domain then [a.domain.classId, a.domain.priority] + Word(a.domain.vlan)
    else TalkerBytes(a.talker)
  }

  /** Listeners are always marked for transmission before their vectors are built. */
  function ItemOf(kind: Kind, a: Attrib): Item
    requires MsrpKind(kind)
  {
    Item(a.kind == kind, KeyBytes(kind, a), a.app.tx || kind == Listener, a.app.optional,
         Mvrp.EventCode(a.app.snd, a.reg.state), a.sub)
  }

  function ItemsOf(kind: Kind, s: seq<Attrib>): (r: seq<Item>)
    requires MsrpKind(kind)
    ensures |r| == |s| && Keyed(kind, r)
  {
    seq<Item>(|s|, i requires 0 <= i < |s| => ItemOf(kind, s[i]))
  }

  // ---------------------------------------------------------------- Attributes as the receiver builds them

  predicate Sound(d: Dispatch) {
    d.Value? && MsrpKind(d.kind) && |d.key| == FirstLength(d.kind)
  }

  function HeardTalker(kind: Kind, key: seq<byte>): Talker
    requires IsTalker(kind) && |key| == FirstLength(kind)
  {
    TalkerOf(if kind == TalkerAdv then key + NoTalker.bridge + [NoTalker.code] else key)
  }

  /** The attribute msrp_recv_msg hands to msrp_event for one received value. */
  function Heard(d: Dispatch, mac: seq<int>): Attrib
    requires Sound(d)
  {
    var blank := Fresh(d.kind, NoTalker.streamId, mac);
    if d.kind == Listener then blank.(talker := NoTalker.(streamId := d.key), sub := d.sub)
    else if d.kind == Domain then blank.(domain := SrDomain(d.key[0], d.key[1], d.key[1], WordOf(d.key, 2)))
    else blank.(talker := HeardTalker(d.kind, d.key))
  }

  /** What a value says about an attribute; a domain is heard with the sender's priority. */
  predicate Says(d: Dispatch, a: Attrib)
    requires Sound(d)
  {
    var h := Heard(d, []);
    && h.kind == a.kind && KeyOf(h) == KeyOf(a) && Mvrp.EventCode(a.app.snd, a.reg.state) == Some(d.ev)
    && (IsTalker(a.kind) ==> h.talker == a.talker)
    && (a.kind == Listener ==> h.sub == a.sub)
    && (a.kind == Domain ==> h.domain.priority == a.domain.priority && h.domain.vlan == a.domain.vlan)
  }

  lemma HeardArrives(d: Dispatch, mac: seq<int>)
    requires Sound(d)
    ensures Arriving(Heard(d, mac))
  {
    if d.kind == TalkerAdv {
      hide LongOf, WordOf;
      var b := d.key + NoTalker.bridge + [NoTalker.code];
      assert b[25..33] == NoTalker.bridge && b[33] == 0;
    }
  }

  lemma HeardTalkerIs(kind: Kind, t: Talker)
    requires IsTalker(kind) && (kind == TalkerAdv ==> t.bridge == NoTalker.bridge && t.code == 0)
    ensures HeardTalker(kind, TalkerBytes(t)[..FirstLength(kind)]) == t
  {
    hide TalkerBytes, TalkerOf;
    TalkerFields(t);
    TalkerRoundTrip(t);
    var b := TalkerBytes(t);
    if kind == TalkerAdv {
      assert b[..25] + NoTalker.bridge + [NoTalker.code] == b by {
        assert b == b[..25] + b[25..33] + [b[33]];
      }
    } else {
      assert b[..34] == b;
    }
  }

  /** The value sent for an attribute tells the receiver exactly that attribute. */
  lemma SentValueSays(kind: Kind, a: Attrib)
    requires a.kind == kind && MsrpKind(kind) && Clean(a) && ItemOf(kind, a).ev.Some?
    ensures var ds := ValueOf(kind, ItemOf(kind, a));
            if kind == Listener && a.sub == 0 then ds == []
            else |ds| == 1 && Sound(ds[0]) && Says(ds[0], a)
  {
    hide TalkerBytes, TalkerOf, HeardTalker;
    if IsTalker(kind) {
      HeardTalkerIs(kind, a.talker);
    } else if kind == Domain {
      var key := KeyBytes(kind, a);
      assert key[..4] == key && key[2..4] == Word(a.domain.vlan);
      WordMoved(key, 2, a.domain.vlan);
    } else {
      assert KeyBytes(kind, a)[..8] == a.talker.streamId;
    }
  }

  // ---------------------------------------------------------------- Registration

  /** A received New or Join registers: the stream's attribute is there and its registrar is IN. */
  lemma HeardRegisters(p2p: bool, db: Db, d: Dispatch, mac: seq<int>)
    requires Valid(db) && Sound(d) && d.ev in {EV_NEW, EV_JOININ, EV_JOINMT}
    requires Interested(db, Heard(d, mac))
    ensures var key := KeyOf(Heard(d, mac));
            var after := Get(ApplyStep(p2p, db, MvrpStations.RxEvent(d.ev), Heard(d, mac)).attribs, key);
            && after.Some? && after.value.reg.state == IN && after.value.reg.mac == mac
            && (Get(db.attribs, key).None? ==>
                  after.value.kind == d.kind && after.value.talker == Heard(d, mac).talker
                  && after.value.domain == Heard(d, mac).domain && after.value.sub == Heard(d, mac).sub)
  {
    hide Heard, Valid, Interested, ApplyStep, Find, Merged, NextApplicant, Announcement;
    var r, e := Heard(d, mac), MvrpStations.RxEvent(d.ev);
    HeardArrives(d, mac);
    HeardKind(d, mac);
    ApplyPerKey(p2p, db, e, r, KeyOf(r));
    ActedMac(db.attribs, r);
    HandledJoin(p2p, Acted(db.attribs, r), e);
  }

  lemma HeardKind(d: Dispatch, mac: seq<int>)
    requires Sound(d)
    ensures Heard(d, mac).kind == d.kind && Heard(d, mac).reg.mac == mac
  {
  }

  lemma ActedMac(s: seq<Attrib>, r: Attrib)
    ensures Acted(s, r).reg.mac == r.reg.mac
    ensures Get(s, KeyOf(r)).None? ==> Acted(s, r) == r
  {
    hide Msrp.Has, KeyOf;
  }

  lemma HandledJoin(p2p: bool, a: Attrib, e: Event)
    requires e in {RNew, RJoinIn, RJoinMt}
    ensures var b := Handled(p2p, a, e);
            && b.reg.state == IN && b.reg.mac == a.reg.mac && !Reclaimable(b)
            && b.kind == a.kind && b.talker == a.talker && b.domain == a.domain && b.sub == a.sub
  {
    hide NextApplicant, Announcement;
  }
}
