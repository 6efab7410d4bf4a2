/**
  MSRP frames end to end: up to four messages, one per attribute type, in one frame, and what
  a receiver makes of them.
 */
module MsrpFrames {
  import opened Mrp
  import opened Mrpdu
  import opened MrpduParse
  import opened MrpduRoundTrip
  import opened MrpduMessages
  import opened Emission
  import opened EmissionMeaning
  import opened EmissionFits
  import Mvrp
  import opened Msrp
  import opened MsrpWire

  const ROOM := Mvrp.ROOM

  const ETHERNET := Mvrp.ETHERNET

  const MSRP_ADDR: seq<byte> := [0x01, 0x80, 0xC2, 0x00, 0x00, 0x0E]

  const MSRP_ETYPE: seq<byte> := [0x22, 0xEA]

  // ---------------------------------------------------------------- Sending

  /** Messages so far, the bytes they take, and per type where its walk over the list stopped. */
  datatype Built = Unsent | Built(messages: seq<Message>, used: nat, stops: seq<nat>)

  predicate Carried(kind: Kind, vs: seq<Vector>) {
    AllWellFormed(kind, vs) && |EncodeVectors(kind, vs)| + 2 < 65536
  }

  /** One emitter call of msrp_txpdu, in the room that is left. */
  function AddMessage(kind: Kind, s: seq<Attrib>, b: Built, lva: bool, sendEmpty: bool): Built
    requires MsrpKind(kind)
  {
    if b.Unsent? || b.used > ROOM then Unsent
    else
      var em := EmitMessage(kind, ItemsOf(kind, s), ROOM - b.used, lva, sendEmpty);
      if em.Oops? then Unsent
      else if em.vectors == [] then b.(stops := b.stops + [em.stop])
      else if !Carried(kind, em.vectors) then Unsent
      else
        Built(b.messages + [Message(kind, em.vectors)],
              b.used + |EncodeMessage(kind, em.vectors)|, b.stops + [em.stop])
  }

  /** Nothing is built on a frame the talkers filled to the end mark. */
  function RoomAfterTalkers(b: Built): Built {
    if b.Unsent? || b.used + 2 >= ROOM then Unsent else b
  }

  const Start := Built([], 0, [])

  function Talkers(s: seq<Attrib>, lva: bool, sendEmpty: bool): Built {
    AddMessage(TalkerFailed, s, AddMessage(TalkerAdv, s, Start, lva, sendEmpty), lva, sendEmpty)
  }

  function BuildAll(s: seq<Attrib>, lva: bool, sendEmpty: bool): Built {
    AddMessage(Domain, s, AddMessage(Listener, s, RoomAfterTalkers(Talkers(s, lva, sendEmpty)), lva, sendEmpty), lva, sendEmpty)
  }

  function FrameOf(station: Mvrp.mac, messages: seq<byte>): seq<byte> {
    MSRP_ADDR + station + MSRP_ETYPE + [0] + messages + ENDMARK
  }

  predicate Sends(b: Built) {
    b.Built? && 0 < b.used && b.used + 2 < ROOM && ReadableMessages(b.messages)
  }

  /** msrp_txpdu: nothing is sent when an emitter fails, nothing is due, or no end mark fits. */
  function TxPdu(station: Mvrp.mac, s: seq<Attrib>, lva: bool, sendEmpty: bool): Option<seq<byte>> {
    var b := BuildAll(s, lva, sendEmpty);
    if Sends(b) then Some(FrameOf(station, EncodeMessages(b.messages))) else None
  }

  // ---------------------------------------------------------------- Receiving

  /** msrp_recv_msg: a frame that is too short, or not addressed and typed as MSRP, is dropped. */
  function ReceiveFrame(frame: seq<byte>): Received {
    if |frame| < ETHERNET + 3 || frame[12..14] != MSRP_ETYPE || frame[..6] != MSRP_ADDR then Received(false, [])
    else ParseMsrp(frame[ETHERNET + 1..], 0, 0, {})
  }

  lemma ReceiveOwnFrame(station: Mvrp.mac, messages: seq<byte>)
    ensures ReceiveFrame(FrameOf(station, messages)) == ParseMsrp(messages + ENDMARK, 0, 0, {})
  {
    hide ParseMsrp;
    var f, head: seq<byte> := FrameOf(station, messages), MSRP_ADDR + station + MSRP_ETYPE + [0];
    var tail := messages + ENDMARK;
    assert f == head + tail;
    assert head[..6] == MSRP_ADDR && head[12..14] == MSRP_ETYPE;
    assert f[..6] == head[..6] && f[12..14] == head[12..14] && f[15..] == tail;
  }

  // ---------------------------------------------------------------- What a message means

  /** What one type puts on the wire: a LeaveAll if one is due, and the events of its attributes. */
  function Spoken(kind: Kind, s: seq<Attrib>, stop: nat, lva: bool): seq<Dispatch>
    requires MsrpKind(kind) && stop <= |s| && Sent(kind, ItemsOf(kind, s), SentIndices(kind, ItemsOf(kind, s), 0, stop))
  {
    (if lva then [LeaveAll(kind)] else []) + ValuesOf(kind, ItemsOf(kind, s), SentIndices(kind, ItemsOf(kind, s), 0, stop))
  }

  ghost predicate CanSpeak(kind: Kind, s: seq<Attrib>, stop: nat)
    requires MsrpKind(kind)
  {
    stop <= |s| && Sent(kind, ItemsOf(kind, s), SentIndices(kind, ItemsOf(kind, s), 0, stop))
  }

  lemma EmptyReads(kind: Kind)
    requires MsrpKind(kind)
    ensures ReadableMessage(kind, [EmptyLeaveAll(kind)]) && AnyLva([EmptyLeaveAll(kind)])
    ensures Meaning(kind, [EmptyLeaveAll(kind)], false) == [LeaveAll(kind)]
  {
    var v := EmptyLeaveAll(kind);
    assert WellFormed(kind, v) && [v][1..] == [];
    assert |EncodeVector(kind, v)| == VectorLength(kind, 0);
    NoValues(kind, v);
    assert Meaning(kind, [v], false) == LeaveAllOf(kind, v, false) + VectorValues(kind, v, 0, v.first) + Meaning(kind, [], true);
    assert [v][0].lva;
  }

  /** The vectors one emitter call returns, when LeaveAll and the empty vector go together. */
  lemma EmitterSpeaks(kind: Kind, s: seq<Attrib>, limit: nat, lva: bool)
    requires MsrpKind(kind) && limit <= MAX_FRAME_SIZE
    requires EmitMessage(kind, ItemsOf(kind, s), limit, lva, lva).Emitted?
    ensures var em := EmitMessage(kind, ItemsOf(kind, s), limit, lva, lva);
            && CanSpeak(kind, s, em.stop)
            && (em.vectors == [] ==> Spoken(kind, s, em.stop, lva) == [])
            && (em.vectors != [] ==> ReadableMessage(kind, em.vectors) && (AnyLva(em.vectors) <==> lva)
                                     && Meaning(kind, em.vectors, false) == Spoken(kind, s, em.stop, lva))
  {
    hide EmitFrom, SentIndices, ValuesOf, Sent, Meaning, Readable, AllWellFormed, EncodeVectors, ReadableMessage, EmptyLeaveAll;
    var items := ItemsOf(kind, s);
    var em := EmitFrom(kind, items, 0, 0, limit, lva);
    EmittedMeaning(kind, items, 0, 0, limit, lva, false);
    var values := ValuesOf(kind, items, SentIndices(kind, items, 0, em.stop));
    if em.vectors == [] {
      NothingMeant(kind);
      NoPrefix(values);
      EmptyReads(kind);
    } else {
      EmittedShape(kind, items, 0, 0, limit, lva);
      EmittedReadable(kind, items, limit, lva);
      FirstSays(em.vectors, lva);
    }
  }

  lemma NothingMeant(kind: Kind)
    ensures Readable(kind, []) && Meaning(kind, [], false) == []
  {
  }

  lemma NoPrefix(ds: seq<Dispatch>)
    ensures [] + ds == ds
  {
  }

  lemma FirstSays(vs: seq<Vector>, lva: bool)
    requires vs != [] && forall k :: 0 <= k < |vs| ==> (vs[k].lva <==> lva && k == 0)
    ensures AnyLva(vs) <==> lva
  {
    assert vs[0].lva <==> lva;
  }

  lemma EmittedReadable(kind: Kind, items: seq<Item>, limit: nat, lva: bool)
    requires MsrpKind(kind) && Keyed(kind, items) && limit <= MAX_FRAME_SIZE
    requires EmitFrom(kind, items, 0, 0, limit, lva).Emitted? && EmitFrom(kind, items, 0, 0, limit, lva).vectors != []
    ensures ReadableMessage(kind, EmitFrom(kind, items, 0, 0, limit, lva).vectors)
  {
    hide EmitFrom, EncodeVectors, WellFormed, Straight;
    EmittedShape(kind, items, 0, 0, limit, lva);
    EmitFromWellFormed(kind, items, 0, 0, limit, lva);
  }

  // ---------------------------------------------------------------- Messages add up

  const Order: seq<Kind> := [TalkerAdv, TalkerFailed, Listener, Domain]

  ghost predicate CanSpeakAll(s: seq<Attrib>, stops: seq<nat>) {
    |stops| <= 4 && forall k :: 0 <= k < |stops| ==> CanSpeak(Order[k], s, stops[k])
  }

  /** Everything the first |stops| types put on the wire. */
  ghost function SpokenAll(s: seq<Attrib>, stops: seq<nat>, lva: bool): seq<Dispatch>
    requires CanSpeakAll(s, stops)
  {
    if stops == [] then []
    else
      var n := |stops| - 1;
      SpokenAll(s, stops[..n], lva) + Spoken(Order[n], s, stops[n], lva)
  }

  ghost predicate Among(kind: Kind, n: nat) {
    exists k :: 0 <= k < n <= 4 && Order[k] == kind
  }

  /** All messages are of the first n types. */
  ghost predicate AllAmong(ms: seq<Message>, n: nat) {
    forall i :: 0 <= i < |ms| ==> Among(ms[i].kind, n)
  }

  /** The messages built so far read back as what their types had to say. */
  ghost predicate Faithful(s: seq<Attrib>, b: Built, lva: bool) {
    && b.Built? && CanSpeakAll(s, b.stops) && ReadableMessages(b.messages)
    && AllAmong(b.messages, |b.stops|)
    && |EncodeMessages(b.messages)| == b.used
    && MeaningOf(b.messages, {}) == SpokenAll(s, b.stops, lva)
  }

  function KindsOf(ms: seq<Message>, saw: set<Kind>): set<Kind>
  {
    if ms == [] then saw
    else KindsOf(ms[1..], if AnyLva(ms[0].vectors) then saw + {ms[0].kind} else saw)
  }

  lemma {:induction false} KindsBound(ms: seq<Message>, saw: set<Kind>, kind: Kind)
    requires kind !in saw && forall i :: 0 <= i < |ms| ==> ms[i].kind != kind
    ensures kind !in KindsOf(ms, saw)
    decreases |ms|
  {
    if ms != [] {
      KindsBound(ms[1..], if AnyLva(ms[0].vectors) then saw + {ms[0].kind} else saw, kind);
    }
  }

  lemma {:induction false} SnocMessage(ms: seq<Message>, m: Message, saw: set<Kind>)
    requires ReadableMessages(ms) && m.kind != Vid && ReadableMessage(m.kind, m.vectors)
    ensures ReadableMessages(ms + [m])
    ensures EncodeMessages(ms + [m]) == EncodeMessages(ms) + EncodeMessage(m.kind, m.vectors)
    ensures MeaningOf(ms + [m], saw) == MeaningOf(ms, saw) + Meaning(m.kind, m.vectors, m.kind in KindsOf(ms, saw))
    decreases |ms|
  {
    hide EncodeMessage, Meaning, ReadableMessage, AnyLva;
    if ms == [] {
      assert ms + [m] == [m] && [m][1..] == [];
    } else {
      assert (ms + [m])[1..] == ms[1..] + [m] && (ms + [m])[0] == ms[0];
      SnocMessage(ms[1..], m, if AnyLva(ms[0].vectors) then saw + {ms[0].kind} else saw);
    }
  }

  lemma SpokenSnoc(s: seq<Attrib>, stops: seq<nat>, stop: nat, lva: bool)
    requires |stops| < 4 && CanSpeakAll(s, stops) && CanSpeak(Order[|stops|], s, stop)
    ensures CanSpeakAll(s, stops + [stop])
    ensures SpokenAll(s, stops + [stop], lva) == SpokenAll(s, stops, lva) + Spoken(Order[|stops|], s, stop, lva)
  {
    hide CanSpeak, Spoken;
    assert (stops + [stop])[..|stops|] == stops;
  }

  lemma AmongOthers(ms: seq<Message>, n: nat)
    requires n < 4 && AllAmong(ms, n)
    ensures forall i :: 0 <= i < |ms| ==> ms[i].kind != Order[n]
  {
  }

  /** Each emitter call adds its type's words to what the frame says. */
  lemma AddFaithful(s: seq<Attrib>, b: Built, lva: bool)
    requires Faithful(s, b, lva) && |b.stops| < 4
    requires AddMessage(Order[|b.stops|], s, b, lva, lva).Built?
    ensures var c := AddMessage(Order[|b.stops|], s, b, lva, lva);
            Faithful(s, c, lva) && |c.stops| == |b.stops| + 1
  {
    hide EmitMessage, Spoken, SpokenAll, CanSpeak, Meaning, MeaningOf, EncodeMessage, EncodeMessages, ReadableMessage, EncodeVectors, AllAmong;
    var n := |b.stops|;
    var kind := Order[n];
    var em := EmitMessage(kind, ItemsOf(kind, s), ROOM - b.used, lva, lva);
    EmitterSpeaks(kind, s, ROOM - b.used, lva);
    SpokenSnoc(s, b.stops, em.stop, lva);
    if em.vectors != [] {
      SnocMessage(b.messages, Message(kind, em.vectors), {});
      AmongOthers(b.messages, n);
      KindsBound(b.messages, {}, kind);
    }
    AmongMore(b.messages, n, Message(kind, em.vectors));
  }

  lemma AmongMore(ms: seq<Message>, n: nat, m: Message)
    requires n < 4 && AllAmong(ms, n) && m.kind == Order[n]
    ensures AllAmong(ms, n + 1) && AllAmong(ms + [m], n + 1)
  {
    forall i | 0 <= i < |ms| ensures Among(ms[i].kind, n + 1) {
      assert Among(ms[i].kind, n);
      var k :| 0 <= k < n && Order[k] == ms[i].kind;
      assert Order[k] == ms[i].kind;
    }
    assert Order[n] == m.kind;
  }

  lemma StartFaithful(s: seq<Attrib>, lva: bool)
    ensures Faithful(s, Start, lva)
  {
  }

  lemma BuildFaithful(s: seq<Attrib>, lva: bool)
    requires BuildAll(s, lva, lva).Built?
    ensures Faithful(s, BuildAll(s, lva, lva), lva) && |BuildAll(s, lva, lva).stops| == 4
  {
    hide AddMessage, Faithful;
    StartFaithful(s, lva);
    UnsentStays(s, lva);
    AddFaithful(s, Start, lva);
    var one := AddMessage(TalkerAdv, s, Start, lva, lva);
    AddFaithful(s, one, lva);
    var two := Talkers(s, lva, lva);
    AddFaithful(s, two, lva);
    AddFaithful(s, AddMessage(Listener, s, two, lva, lva), lva);
  }

  lemma UnsentStays(s: seq<Attrib>, lva: bool)
    ensures forall kind :: MsrpKind(kind) ==> AddMessage(kind, s, Unsent, lva, lva) == Unsent
  {
  }

  /**
    MSRP wire round trip: for every list, receiving the frame built from it dispatches, type by
    type, one LeaveAll if one was due and then exactly the sent attributes' events.
   */
  lemma FrameRoundTrip(station: Mvrp.mac, s: seq<Attrib>, lva: bool)
    requires TxPdu(station, s, lva, lva).Some?
    ensures BuildAll(s, lva, lva).Built?
    ensures var stops := BuildAll(s, lva, lva).stops;
            && |stops| == 4 && CanSpeakAll(s, stops)
            && ReceiveFrame(TxPdu(station, s, lva, lva).value) == Received(true, SpokenAll(s, stops, lva))
  {
    hide BuildAll, FrameOf, ReceiveFrame, ParseMsrp, EncodeMessages, MeaningOf, SpokenAll, CanSpeakAll;
    BuildFaithful(s, lva);
    var b := BuildAll(s, lva, lva);
    ReceiveOwnFrame(station, EncodeMessages(b.messages));
    MsrpMessagesRead(b.messages);
  }

  // ---------------------------------------------------------------- What the receiver learns

  ghost predicate CleanList(s: seq<Attrib>) {
    forall i :: 0 <= i < |s| ==> MsrpKind(s[i].kind) && Clean(s[i])
  }

  ghost predicate AllOfKind(kind: Kind, s: seq<Attrib>, indices: seq<nat>) {
    forall k :: 0 <= k < |indices| ==> indices[k] < |s| && s[indices[k]].kind == kind
  }

  lemma {:induction false} ValueOrigin(kind: Kind, s: seq<Attrib>, indices: seq<nat>, d: Dispatch) returns (j: nat)
    requires MsrpKind(kind) && CleanList(s) && Sent(kind, ItemsOf(kind, s), indices)
    requires AllOfKind(kind, s, indices) && d in ValuesOf(kind, ItemsOf(kind, s), indices)
    ensures j < |s| && Sound(d) && Says(d, s[j])
  {
    hide ValueOf, ItemOf, Says, Sound, Clean;
    var a := s[indices[0]];
    SentValueSays(kind, a);
    if d in ValueOf(kind, ItemOf(kind, a)) {
      j := indices[0];
    } else {
      j := ValueOrigin(kind, s, indices[1..], d);
    }
  }

  lemma {:induction false} ValuePresent(kind: Kind, s: seq<Attrib>, indices: seq<nat>, j: nat) returns (d: Dispatch)
    requires MsrpKind(kind) && CleanList(s) && Sent(kind, ItemsOf(kind, s), indices) && j in indices && s[j].kind == kind
    requires !(kind == Listener && s[j].sub == 0)
    ensures d in ValuesOf(kind, ItemsOf(kind, s), indices) && Sound(d) && Says(d, s[j])
  {
    hide ValueOf, ItemOf, Says, Sound, Clean;
    if j == indices[0] {
      SentValueSays(kind, s[j]);
      d := ValueOf(kind, ItemOf(kind, s[j]))[0];
    } else {
      d := ValuePresent(kind, s, indices[1..], j);
    }
  }

  lemma {:induction false} SpokenOrigin(s: seq<Attrib>, stops: seq<nat>, lva: bool, d: Dispatch) returns (k: nat)
    requires CanSpeakAll(s, stops) && d in SpokenAll(s, stops, lva)
    ensures k < |stops| && d in Spoken(Order[k], s, stops[k], lva)
  {
    hide Spoken, CanSpeak;
    var n := |stops| - 1;
    if d in SpokenAll(s, stops[..n], lva) {
      k := SpokenOrigin(s, stops[..n], lva, d);
    } else {
      k := n;
    }
  }

  lemma {:induction false} SpokenPresent(s: seq<Attrib>, stops: seq<nat>, lva: bool, k: nat, d: Dispatch)
    requires CanSpeakAll(s, stops) && k < |stops| && d in Spoken(Order[k], s, stops[k], lva)
    ensures d in SpokenAll(s, stops, lva)
  {
    hide Spoken, CanSpeak;
    if k < |stops| - 1 {
      SpokenPresent(s, stops[..|stops| - 1], lva, k, d);
    }
  }

  lemma SentAreMine(kind: Kind, s: seq<Attrib>, stop: nat)
    requires MsrpKind(kind) && stop <= |s|
    ensures AllOfKind(kind, s, SentIndices(kind, ItemsOf(kind, s), 0, stop))
  {
    hide SentIndices, KeyBytes;
    var items, indices := ItemsOf(kind, s), SentIndices(kind, ItemsOf(kind, s), 0, stop);
    SentExactly(kind, items, 0, stop);
    forall k | 0 <= k < |indices| ensures indices[k] < |s| && s[indices[k]].kind == kind {
      assert Justified(kind, items, indices, k);
      assert items[indices[k]] == ItemOf(kind, s[indices[k]]);
    }
  }

  /** Every value the receiver hears from the frame is true of an attribute in the sender's list. */
  lemma FrameTellsTruth(station: Mvrp.mac, s: seq<Attrib>, lva: bool, d: Dispatch) returns (j: nat)
    requires TxPdu(station, s, lva, lva).Some? && CleanList(s)
    requires d in ReceiveFrame(TxPdu(station, s, lva, lva).value).out && d.Value?
    ensures j < |s| && Sound(d) && Says(d, s[j])
  {
    hide TxPdu, ReceiveFrame, BuildAll, SpokenAll, SentIndices, ValuesOf, Sent, Says, Sound, CleanList;
    FrameRoundTrip(station, s, lva);
    var stops := BuildAll(s, lva, lva).stops;
    var k := SpokenOrigin(s, stops, lva, d);
    var kind := Order[k];
    assert CanSpeak(kind, s, stops[k]);
    SentAreMine(kind, s, stops[k]);
    j := ValueOrigin(kind, s, SentIndices(kind, ItemsOf(kind, s), 0, stops[k]), d);
  }

  predicate MustSend(a: Attrib) {
    (a.app.tx || a.kind == Listener) && !a.app.optional && !(a.kind == Listener && a.sub == 0)
  }

  function OrderOf(kind: Kind): (k: nat)
    requires MsrpKind(kind)
    ensures k < 4 && Order[k] == kind
  {
    if kind == TalkerAdv then 0 else if kind == TalkerFailed then 1 else if kind == Listener then 2 else 3
  }

  /** Every attribute that had to be sent, before its type's walk stopped, is heard as it is. */
  lemma FrameTellsAll(station: Mvrp.mac, s: seq<Attrib>, lva: bool, j: nat) returns (d: Dispatch)
    requires TxPdu(station, s, lva, lva).Some? && CleanList(s)
    requires j < |s| && MustSend(s[j])
    requires var stops := BuildAll(s, lva, lva).stops;
             MsrpKind(s[j].kind) && |stops| == 4 && j < stops[OrderOf(s[j].kind)]
    ensures d in ReceiveFrame(TxPdu(station, s, lva, lva).value).out && Sound(d) && Says(d, s[j])
  {
    hide TxPdu, ReceiveFrame, BuildAll, SpokenAll, SentIndices, ValuesOf, Sent, Says, Sound, CleanList, KeyBytes;
    FrameRoundTrip(station, s, lva);
    var stops, kind := BuildAll(s, lva, lva).stops, s[j].kind;
    var k := OrderOf(kind);
    assert CanSpeak(Order[k], s, stops[k]);
    var items := ItemsOf(kind, s);
    assert Leads(items[j]);
    SentExactly(kind, items, 0, stops[k]);
    d := ValuePresent(kind, s, SentIndices(kind, items, 0, stops[k]), j);
    SpokenPresent(s, stops, lva, k, d);
  }

  // ---------------------------------------------------------------- Does the frame hold everything?

  /** Bytes of one type's message when everything due is in it. */
  function MessageBytes(kind: Kind, s: seq<Attrib>, lva: bool): nat
    requires MsrpKind(kind)
  {
    var due := FullSize(kind, ItemsOf(kind, s), 0);
    if due > 0 then due + 6 else if lva then FirstLength(kind) as int + 8 else 0
  }

  function BytesBefore(n: nat, s: seq<Attrib>, lva: bool): nat
    requires n <= 4
  {
    if n == 0 then 0 else BytesBefore(n - 1, s, lva) + MessageBytes(Order[n - 1], s, lva)
  }

  ghost predicate AllSent(s: seq<Attrib>, stops: seq<nat>) {
    |stops| <= 4 && forall k :: 0 <= k < |stops| ==> NoneDue(ItemsOf(Order[k], s), stops[k])
  }

  ghost predicate FrameHoldsAll(station: Mvrp.mac, s: seq<Attrib>, lva: bool) {
    TxPdu(station, s, lva, lva).Some? && AllSent(s, BuildAll(s, lva, lva).stops)
  }

  /** Each emitter finds room for the smallest vector of its type, due or not. */
  predicate RoomToStart(n: nat, s: seq<Attrib>, lva: bool)
    requires n <= 4
  {
    forall k :: 0 <= k < n ==> BytesBefore(k, s, lva) + VectorSize(Order[k]) <= ROOM
  }

  ghost predicate Encodable(s: seq<Attrib>) {
    forall i :: 0 <= i < |s| ==> Mvrp.EventCode(s[i].app.snd, s[i].reg.state).Some?
  }

  lemma ItemsSendable(kind: Kind, s: seq<Attrib>)
    requires MsrpKind(kind) && Encodable(s)
    ensures Sendable(ItemsOf(kind, s), 0, |s|)
  {
    hide KeyBytes;
  }

  /** The size of a complete emission. */
  lemma CompleteBytes(kind: Kind, s: seq<Attrib>, limit: nat, lva: bool)
    requires MsrpKind(kind) && limit <= MAX_FRAME_SIZE
    requires var em := EmitMessage(kind, ItemsOf(kind, s), limit, lva, lva);
             em.Emitted? && NoneDue(ItemsOf(kind, s), em.stop)
    ensures var em := EmitMessage(kind, ItemsOf(kind, s), limit, lva, lva);
            && (em.vectors == [] <==> MessageBytes(kind, s, lva) == 0)
            && (em.vectors != [] ==> Carried(kind, em.vectors)
                                     && |EncodeMessage(kind, em.vectors)| == MessageBytes(kind, s, lva))
  {
    hide EmitFrom, EncodeVectors, FullSize, NoneDue, WellFormed;
    var items := ItemsOf(kind, s);
    var em := EmitFrom(kind, items, 0, 0, limit, lva);
    EmitFromWellFormed(kind, items, 0, 0, limit, lva);
    CompleteSize(kind, items, 0, 0, limit, lva);
    if em.vectors == [] {
      NoBytes(kind);
      EmptyBytes(kind);
    } else {
      SomeBytes(kind, em.vectors);
      MessageLength(kind, em.vectors);
    }
  }

  lemma NoBytes(kind: Kind)
    ensures AllWellFormed(kind, []) && |EncodeVectors(kind, [])| == 0
  {
  }

  lemma EmptyBytes(kind: Kind)
    requires MsrpKind(kind)
    ensures Carried(kind, [EmptyLeaveAll(kind)])
    ensures |EncodeMessage(kind, [EmptyLeaveAll(kind)])| == FirstLength(kind) as int + 8
  {
    var v := EmptyLeaveAll(kind);
    assert WellFormed(kind, v) && [v][1..] == [];
    assert |EncodeVector(kind, v)| == VectorLength(kind, 0);
    MessageLength(kind, [v]);
  }

  lemma SomeBytes(kind: Kind, vs: seq<Vector>)
    requires AllWellFormed(kind, vs) && vs != []
    ensures |EncodeVectors(kind, vs)| > 0
  {
    assert EncodeVectors(kind, vs) == EncodeVector(kind, vs[0]) + EncodeVectors(kind, vs[1..]);
  }

  lemma MessageLength(kind: Kind, vs: seq<Vector>)
    requires MsrpKind(kind) && AllWellFormed(kind, vs) && |EncodeVectors(kind, vs)| + 2 < 65536
    ensures |EncodeMessage(kind, vs)| == |EncodeVectors(kind, vs)| + 6
  {
    hide EncodeVectors;
  }

  /** One emitter call is complete exactly when there is room to start and room for everything. */
  lemma EmitterComplete(kind: Kind, s: seq<Attrib>, limit: nat, lva: bool)
    requires MsrpKind(kind) && Encodable(s) && MessageBytes(kind, s, lva) + 2 < limit && VectorSize(kind) <= limit
    ensures var em := EmitMessage(kind, ItemsOf(kind, s), limit, lva, lva);
            em.Emitted? && NoneDue(ItemsOf(kind, s), em.stop)
  {
    hide EmitFrom, FullSize, NoneDue, Encodable;
    var items := ItemsOf(kind, s);
    ItemsSendable(kind, s);
    if FullSize(kind, items, 0) > 0 {
      EverythingFits(kind, items, 0, 0, limit, lva);
    } else {
      NothingToEmit(kind, items, 0, limit, lva);
    }
  }

  /** With nothing due, a walk writes nothing and cannot fail. */
  lemma {:induction false} NothingToEmit(kind: Kind, items: seq<Item>, i: nat, limit: nat, lva: bool)
    requires i <= |items| && Keyed(kind, items) && FullSize(kind, items, i) == 0
    ensures var em := EmitFrom(kind, items, i, 0, limit, lva);
            em.Emitted? && em.vectors == [] && NoneDue(items, i) && NoneDue(items, em.stop) && em.stop >= i
    decreases |items| - i
  {
    hide VectorLength, VectorSize, HeaderLength, NextKey, Extends, Leads;
    if i < |items| {
      assert !Leads(items[i]);
      NothingToEmit(kind, items, i + 1, limit, lva);
    }
  }

  ghost predicate Complete(n: nat, s: seq<Attrib>, b: Built, lva: bool) {
    n <= 4 && b.Built? && |b.stops| == n && AllSent(s, b.stops) && b.used == BytesBefore(n, s, lva)
  }

  lemma AllSentSnoc(s: seq<Attrib>, stops: seq<nat>, stop: nat)
    requires |stops| < 4
    ensures AllSent(s, stops + [stop]) <==> AllSent(s, stops) && NoneDue(ItemsOf(Order[|stops|], s), stop)
  {
    hide NoneDue, ItemsOf;
    var t := stops + [stop];
    if AllSent(s, t) {
      forall k | 0 <= k < |stops| ensures NoneDue(ItemsOf(Order[k], s), stops[k]) {
        assert t[k] == stops[k];
      }
      assert t[|stops|] == stop;
    }
  }

  /** One more type stays complete if there is room, and never does without room to start. */
  lemma StepComplete(n: nat, s: seq<Attrib>, b: Built, lva: bool)
    requires n < 4 && Encodable(s) && Complete(n, s, b, lva)
    ensures BytesBefore(n + 1, s, lva) + 2 < ROOM && b.used + VectorSize(Order[n]) <= ROOM ==>
              Complete(n + 1, s, AddMessage(Order[n], s, b, lva, lva), lva)
    ensures var c := AddMessage(Order[n], s, b, lva, lva);
            c.Built? && AllSent(s, c.stops) ==>
              Complete(n + 1, s, c, lva) && b.used + VectorSize(Order[n]) <= ROOM
  {
    hide EmitFrom, MessageBytes, Encodable, NoneDue, AllSent, EncodeMessage, EncodeVectors, AllWellFormed;
    var kind := Order[n];
    OrderMsrp(n);
    if b.used <= ROOM {
      var limit := ROOM - b.used;
      var em := EmitMessage(kind, ItemsOf(kind, s), limit, lva, lva);
      if em.Emitted? {
        AllSentSnoc(s, b.stops, em.stop);
      }
      if MessageBytes(kind, s, lva) + 2 < limit && VectorSize(kind) <= limit {
        EmitterComplete(kind, s, limit, lva);
      }
      if em.Emitted? && NoneDue(ItemsOf(kind, s), em.stop) {
        CompleteBytes(kind, s, limit, lva);
      }
    }
  }

  lemma OrderMsrp(n: nat)
    requires n < 4
    ensures MsrpKind(Order[n])
  {
  }

  lemma StartComplete(s: seq<Attrib>, lva: bool)
    ensures Complete(0, s, Start, lva)
  {
  }

  lemma AllSentBefore(n: nat, s: seq<Attrib>, b: Built, lva: bool)
    requires n < 4 && b.Built? && |b.stops| == n
    requires var c := AddMessage(Order[n], s, b, lva, lva); c.Built? && AllSent(s, c.stops)
    ensures AllSent(s, b.stops)
  {
    hide EmitMessage, NoneDue, AllSent, EncodeMessage, EncodeVectors, AllWellFormed;
    OrderMsrp(n);
    var em := EmitMessage(Order[n], ItemsOf(Order[n], s), ROOM - b.used, lva, lva);
    AllSentSnoc(s, b.stops, em.stop);
  }

  lemma StopsGrow(n: nat, s: seq<Attrib>, b: Built, lva: bool)
    requires n < 4 && AddMessage(Order[n], s, b, lva, lva).Built?
    ensures b.Built? && |AddMessage(Order[n], s, b, lva, lva).stops| == |b.stops| + 1
  {
    hide EmitMessage, EncodeMessage, EncodeVectors, AllWellFormed;
  }

  lemma {:induction false} BytesGrow(m: nat, n: nat, s: seq<Attrib>, lva: bool)
    requires m <= n <= 4
    ensures BytesBefore(m, s, lva) <= BytesBefore(n, s, lva)
  {
    if m < n {
      BytesGrow(m, n - 1, s, lva);
    }
  }

  function Stage(n: nat, s: seq<Attrib>, lva: bool): Built
    requires n <= 4
  {
    if n == 0 then Start
    else
      var b := AddMessage(Order[n - 1], s, Stage(n - 1, s, lva), lva, lva);
      if n == 2 then RoomAfterTalkers(b) else b
  }

  lemma StageIsBuild(s: seq<Attrib>, lva: bool)
    ensures Stage(4, s, lva) == BuildAll(s, lva, lva)
  {
    hide AddMessage;
    assert Stage(0, s, lva) == Start;
    assert Stage(1, s, lva) == AddMessage(TalkerAdv, s, Start, lva, lva);
    assert Stage(2, s, lva) == RoomAfterTalkers(Talkers(s, lva, lva));
    assert Stage(3, s, lva) == AddMessage(Listener, s, Stage(2, s, lva), lva, lva);
  }

  lemma {:induction false} StageComplete(n: nat, s: seq<Attrib>, lva: bool)
    requires n <= 4 && Encodable(s) && BytesBefore(n, s, lva) + 2 < ROOM && RoomToStart(n, s, lva)
    ensures Complete(n, s, Stage(n, s, lva), lva)
  {
    hide AddMessage, AllSent, Encodable;
    if n == 0 {
      StartComplete(s, lva);
    } else {
      BytesGrow(n - 1, n, s, lva);
      StageComplete(n - 1, s, lva);
      StepComplete(n - 1, s, Stage(n - 1, s, lva), lva);
    }
  }

  lemma {:induction false} CompleteStage(n: nat, s: seq<Attrib>, lva: bool)
    requires n <= 4 && Encodable(s) && Stage(n, s, lva).Built?
    requires |Stage(n, s, lva).stops| == n && AllSent(s, Stage(n, s, lva).stops)
    ensures Complete(n, s, Stage(n, s, lva), lva) && RoomToStart(n, s, lva)
  {
    hide AddMessage, AllSent, Encodable;
    if n == 0 {
      StartComplete(s, lva);
    } else {
      var b := Stage(n - 1, s, lva);
      StopsGrow(n - 1, s, b, lva);
      AllSentBefore(n - 1, s, b, lva);
      CompleteStage(n - 1, s, lva);
      StepComplete(n - 1, s, b, lva);
    }
  }

  /**
    A frame that holds everything goes out exactly when there is something to send, the
    messages and the end mark stay below the room there is, and every type still finds room
    for its smallest vector when its turn comes.
   */
  lemma FrameHoldsAllIff(station: Mvrp.mac, s: seq<Attrib>, lva: bool)
    requires Encodable(s)
    ensures FrameHoldsAll(station, s, lva)
       <==> 0 < BytesBefore(4, s, lva) && BytesBefore(4, s, lva) + 2 < ROOM && RoomToStart(4, s, lva)
  {
    hide BuildAll, BytesBefore, AllSent, Encodable, ReadableMessages, EncodeMessages, FrameOf, RoomToStart;
    StageIsBuild(s, lva);
    var b := BuildAll(s, lva, lva);
    if b.Built? {
      BuildReadable(s, lva);
      if AllSent(s, b.stops) {
        CompleteStage(4, s, lva);
      }
    }
    if BytesBefore(4, s, lva) + 2 < ROOM && RoomToStart(4, s, lva) {
      StageComplete(4, s, lva);
      BuildReadable(s, lva);
    }
  }

  lemma BuildReadable(s: seq<Attrib>, lva: bool)
    requires BuildAll(s, lva, lva).Built?
    ensures ReadableMessages(BuildAll(s, lva, lva).messages) && |BuildAll(s, lva, lva).stops| == 4
  {
    hide BuildAll, ReadableMessages, SpokenAll, MeaningOf, EncodeMessages, CanSpeakAll;
    BuildFaithful(s, lva);
  }
}
