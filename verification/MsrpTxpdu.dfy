/**
  msrp_txpdu as it runs: four emitter calls, one after the other, into one frame buffer. It
  builds the specified frame or none for every list, and writes behind the buffer exactly for
  those lists whose calls MsrpReach says do not stay inside.
 */
module MsrpTxpdu {
  import opened Mrp
  import opened Mrpdu
  import opened MrpduMessages
  import opened Emission
  import opened EmissionReach
  import opened Emitter
  import Mvrp
  import opened Msrp
  import opened MsrpWire
  import opened MsrpFrames
  import opened MsrpReach

  const BASE := ETHERNET + 1

  /** The frame buffer and the bytes behind it that a call can reach. */
  const MEMORY := MAX_FRAME_SIZE + 7

  ghost function Head(station: Mvrp.mac): seq<byte> {
    MSRP_ADDR + station + MSRP_ETYPE + [0]
  }

  /** The buffer holds the frame's header and the messages built so far, and zeros but for a stale type. */
  ghost predicate Buffered(station: Mvrp.mac, buf: seq<byte>, s: seq<Attrib>, b: Built, lva: bool) {
    && b.Built? && Faithful(s, b, lva) && |buf| == MEMORY && b.used <= ROOM
    && buf[..BASE] == Head(station)
    && buf[BASE..BASE + b.used] == EncodeMessages(b.messages)
    && (b.used + 2 <= ROOM ==> Blank(buf, BASE + b.used + 2, MAX_FRAME_SIZE))
  }

  lemma KeepsFront(before: seq<byte>, now: seq<byte>, from: nat, to: nat)
    requires SameOutside(before, now, from, to) && from <= |before|
    ensures |now| == |before| && now[..from] == before[..from]
  {
  }

  lemma FrontParts(before: seq<byte>, now: seq<byte>, mid: nat, from: nat)
    requires mid <= from <= |before| == |now| && now[..from] == before[..from]
    ensures now[..mid] == before[..mid] && now[mid..from] == before[mid..from]
  {
    assert now[..mid] == now[..from][..mid] && before[..mid] == before[..from][..mid];
    assert now[mid..from] == now[..from][mid..] && before[mid..from] == before[..from][mid..];
  }

  /** A call that adds no message leaves the messages as they are. */
  lemma NothingAdded(station: Mvrp.mac, before: seq<byte>, now: seq<byte>, s: seq<Attrib>, b: Built, c: Built, lva: bool, reach: nat)
    requires Buffered(station, before, s, b, lva) && c.Built? && Faithful(s, c, lva) && c.messages == b.messages && c.used == b.used
    requires SameOutside(before, now, BASE + b.used, BASE + b.used + reach)
    requires b.used + 2 <= ROOM && Blank(now, BASE + b.used + 2, MAX_FRAME_SIZE)
    ensures Buffered(station, now, s, c, lva)
  {
    hide Faithful, EncodeMessages, SameOutside;
    KeepsFront(before, now, BASE + b.used, BASE + b.used + reach);
    FrontParts(before, now, BASE, BASE + b.used);
  }

  /** A closed message behind the others is one message more. */
  lemma MessageAdded(station: Mvrp.mac, before: seq<byte>, now: seq<byte>, s: seq<Attrib>, b: Built, c: Built, lva: bool,
                     kind: Kind, vs: seq<Vector>, used: nat)
    requires Buffered(station, before, s, b, lva) && c.Built? && Faithful(s, c, lva) && MsrpKind(kind)
    requires SameOutside(before, now, BASE + b.used, BASE + b.used + used)
    requires Closed(kind, now, BASE + b.used, ROOM - b.used, vs, used)
    requires ReadableMessage(kind, vs) && c.messages == b.messages + [Message(kind, vs)]
    requires c.used == b.used + |EncodeMessage(kind, vs)|
    ensures Buffered(station, now, s, c, lva)
  {
    hide Faithful, EncodeMessages, EncodeMessage, SameOutside, ReadableMessage, AllWellFormed, EncodeVectors, Closed, Blank, ReadableMessages, MeaningOf;
    ClosedCarries(kind, now, BASE + b.used, ROOM - b.used, vs, used);
    FaithfulReads(s, b, lva);
    SnocMessage(b.messages, Message(kind, vs), {});
    KeepsFront(before, now, BASE + b.used, BASE + b.used + used);
    FrontParts(before, now, BASE, BASE + b.used);
    SplitAt(now, BASE, BASE + b.used, BASE + c.used);
    BlankTail(now, BASE + c.used, MAX_FRAME_SIZE);
  }

  lemma FaithfulReads(s: seq<Attrib>, b: Built, lva: bool)
    requires Faithful(s, b, lva)
    ensures b.Built? && ReadableMessages(b.messages) && |EncodeMessages(b.messages)| == b.used
  {
  }

  lemma SplitAt(a: seq<byte>, i: nat, j: nat, k: nat)
    requires i <= j <= k <= |a|
    ensures a[i..k] == a[i..j] + a[j..k]
  {
  }

  lemma BlankTail(a: seq<byte>, from: nat, to: nat)
    requires Blank(a, from, to)
    ensures from + 2 <= to ==> Blank(a, from + 2, to)
  {
  }

  lemma RoomIsBlank(a: seq<byte>, used: nat)
    requires |a| == MEMORY && used <= ROOM && (used + 2 <= ROOM ==> Blank(a, BASE + used + 2, MAX_FRAME_SIZE))
    ensures ROOM - used >= 2 ==> Blank(a, BASE + used + 2, BASE + used + (ROOM - used))
  {
  }

  /**
    One emitter call of msrp_txpdu: `ok` is false when the frame has to be given up, and `reach`
    is how far it writes. Behind a call that ran past the frame there is no room for any vector.
   */
  method EmitType(station: Mvrp.mac, n: nat, s: seq<Attrib>, buf: array<byte>, used0: nat, lva: bool, ghost b: Built)
    returns (ok: bool, used: nat, ghost reach: nat)
    requires n < 4 && b.Built? && |b.stops| == n && b.used == used0 && buf.Length == MEMORY
    requires used0 <= ROOM ==> Buffered(station, buf[..], s, b, lva)
    modifies buf
    ensures var c := AddMessage(Order[n], s, b, lva, lva);
            && (ok <==> c.Built?)
            && (ok ==> |c.stops| == n + 1 && c.used == used && (used <= ROOM ==> Buffered(station, buf[..], s, c, lva)))
    ensures SameOutside(old(buf[..]), buf[..], BASE + used0, BASE + used0 + reach)
    ensures reach == if used0 <= ROOM then Reach(Order[n], ItemsOf(Order[n], s), ROOM - used0, lva, lva) else 0
    ensures used0 <= ROOM ==> BASE + used0 + reach <= MEMORY
  {
    hide EmitMessage, Reach, Closed, EncodeMessage, EncodeMessages, EncodeVectors, Faithful, OnlyTxCleared, SameOutside, ReadableMessage, MessageLeft, AllWellFormed;
    OrderMsrp(n);
    ok, used, reach := false, used0, 0;
    ghost var before := buf[..];
    if used0 <= ROOM {
      var kind, list := Order[n], ItemsOf(Order[n], s);
      var items := new Item[|list|](i requires 0 <= i < |list| => list[i]);
      assert items[..] == list;
      RoomIsBlank(before, used0);
      Overrun(kind, list, ROOM - used0, lva, lva);
      var bytes;
      ok, bytes, reach := EmitVectors(kind, items, buf, BASE + used0, ROOM - used0, lva, lva);
      used := used0 + bytes;
      CallAdds(station, n, s, before, buf[..], b, lva, ok, bytes, reach);
    } else {
      NothingWritten(before, BASE + used0);
    }
  }

  lemma CallAdds(station: Mvrp.mac, n: nat, s: seq<Attrib>, before: seq<byte>, now: seq<byte>, b: Built, lva: bool, ok: bool, bytes: nat, reach: nat)
    requires n < 4 && Buffered(station, before, s, b, lva) && |b.stops| == n && MsrpKind(Order[n])
    requires SameOutside(before, now, BASE + b.used, BASE + b.used + reach)
    requires reach == Reach(Order[n], ItemsOf(Order[n], s), ROOM - b.used, lva, lva)
    requires var em := EmitMessage(Order[n], ItemsOf(Order[n], s), ROOM - b.used, lva, lva);
             && (ok <==> em.Emitted?)
             && (ok ==> MessageLeft(Order[n], em, now, BASE + b.used, ROOM - b.used, bytes, reach))
    requires !ok ==> bytes == 0
    ensures var c := AddMessage(Order[n], s, b, lva, lva);
            && (ok <==> c.Built?)
            && (ok ==> |c.stops| == n + 1 && c.used == b.used + bytes && (c.used <= ROOM ==> Buffered(station, now, s, c, lva)))
  {
    hide Reach, EmitMessage, EncodeMessage, EncodeMessages, EncodeVectors, Faithful, SameOutside, ReadableMessage, Closed, Blank, AllWellFormed, Buffered, Spoken, CanSpeak;
    BufferedFacts(station, before, s, b, lva);
    var kind := Order[n];
    var em := EmitMessage(kind, ItemsOf(kind, s), ROOM - b.used, lva, lva);
    Overrun(kind, ItemsOf(kind, s), ROOM - b.used, lva, lva);
    if ok && reach > ROOM - b.used {
      EmptyCarried(kind);
      MessageLeftUsed(kind, em, now, BASE + b.used, ROOM - b.used, bytes, reach);
    } else if ok {
      EmitterSpeaks(kind, s, ROOM - b.used, lva);
      if em.vectors != [] {
        ClosedCarries(kind, now, BASE + b.used, ROOM - b.used, em.vectors, bytes);
      }
      AddFaithful(s, b, lva);
      var c := AddMessage(kind, s, b, lva, lva);
      if em.vectors == [] {
        LimitTwo(kind, s, ROOM - b.used, lva);
        NothingAdded(station, before, now, s, b, c, lva, reach);
      } else {
        MessageAdded(station, before, now, s, b, c, lva, kind, em.vectors, bytes);
      }
    }
  }

  lemma EmptyCarried(kind: Kind)
    requires MsrpKind(kind)
    ensures Carried(kind, [EmptyLeaveAll(kind)])
    ensures |EncodeMessage(kind, [EmptyLeaveAll(kind)])| == HeaderLength(kind) + FirstLength(kind) + 4
  {
    hide VectorHeader;
    var v := EmptyLeaveAll(kind);
    EmptyVectorParts(kind);
    assert [v][1..] == [] && EncodeVectors(kind, [v]) == EncodeVector(kind, v);
  }

  lemma MessageLeftUsed(kind: Kind, em: Emitted, buf: seq<byte>, base: nat, limit: nat, used: nat, reach: nat)
    requires MessageLeft(kind, em, buf, base, limit, used, reach) && em.vectors != []
    ensures used == reach
  {
    hide Closed;
  }

  lemma BufferedFacts(station: Mvrp.mac, buf: seq<byte>, s: seq<Attrib>, b: Built, lva: bool)
    requires Buffered(station, buf, s, b, lva)
    ensures Faithful(s, b, lva) && b.Built? && b.used <= ROOM && |buf| == MEMORY
  {
    hide EncodeMessages, SpokenAll, MeaningOf;
  }

  lemma ClosedCarries(kind: Kind, buf: seq<byte>, base: nat, limit: nat, vs: seq<Vector>, used: nat)
    requires Closed(kind, buf, base, limit, vs, used)
    ensures Carried(kind, vs) && |EncodeMessage(kind, vs)| == used && base + used <= base + limit <= |buf|
    ensures buf[base..base + used] == EncodeMessage(kind, vs) && Blank(buf, base + used, base + limit)
  {
    hide EncodeVectors;
  }

  lemma LimitTwo(kind: Kind, s: seq<Attrib>, limit: nat, lva: bool)
    requires MsrpKind(kind) && EmitMessage(kind, ItemsOf(kind, s), limit, lva, lva).Emitted?
    ensures limit >= 2
  {
    hide EmitFrom;
  }

  /** What the n-th call needs, and what it leaves. */
  ghost predicate Ready(station: Mvrp.mac, n: nat, s: seq<Attrib>, buf: seq<byte>, used: nat, lva: bool) {
    && n <= 4 && |buf| == MEMORY
    && var b := Stage(n, s, lva);
       b.Built? && |b.stops| == n && b.used == used && (used <= ROOM ==> Buffered(station, buf, s, b, lva))
  }

  ghost function Max(a: nat, b: nat): nat { if a < b then b else a }

  /** The calls before the n-th stayed inside if and only if nothing was written behind the frame. */
  ghost predicate Inside(n: nat, s: seq<Attrib>, lva: bool, end: nat) {
    n <= 4 && (end <= MAX_FRAME_SIZE <==> forall k :: 0 <= k < n ==> CallStays(k, s, lva))
  }

  /** The call for the n-th type, on top of what the earlier calls have built. */
  method EmitStage(station: Mvrp.mac, n: nat, s: seq<Attrib>, buf: array<byte>, used0: nat, lva: bool, ghost end0: nat)
    returns (ok: bool, used: nat, ghost end: nat)
    requires n < 4 && Ready(station, n, s, buf[..], used0, lva) && Inside(n, s, lva, end0) && end0 <= MEMORY
    modifies buf
    ensures var c := AddMessage(Order[n], s, Stage(n, s, lva), lva, lva);
            && (ok <==> c.Built?)
            && (ok ==> |c.stops| == n + 1 && c.used == used && (used <= ROOM ==> Buffered(station, buf[..], s, c, lva)))
    ensures end0 <= end <= MEMORY && Inside(n + 1, s, lva, end) && SameOutside(old(buf[..]), buf[..], BASE, Max(BASE, end))
  {
    hide AddMessage, Buffered, Reach, Stage, SameOutside;
    ghost var reach;
    ok, used, reach := EmitType(station, n, s, buf, used0, lva, Stage(n, s, lva));
    end := if used0 <= ROOM then Max(end0, BASE + used0 + reach) else end0;
    InsideStep(n, s, lva, end0, used0, reach);
    WrittenUpTo(old(buf[..]), buf[..], used0, reach, end);
  }

  lemma InsideStep(n: nat, s: seq<Attrib>, lva: bool, end: nat, used: nat, reach: nat)
    requires n < 4 && Inside(n, s, lva, end) && Stage(n, s, lva).Built? && Stage(n, s, lva).used == used
    requires used <= ROOM ==> reach == Reach(Order[n], ItemsOf(Order[n], s), ROOM - used, lva, lva)
    ensures Inside(n + 1, s, lva, if used <= ROOM then Max(end, BASE + used + reach) else end)
  {
    hide Stage, Reach;
    assert CallStays(n, s, lva) <==> (used <= ROOM ==> BASE + used + reach <= MAX_FRAME_SIZE);
    hide CallStays;
    assert (forall k :: 0 <= k < n + 1 ==> CallStays(k, s, lva))
      <==> (forall k :: 0 <= k < n ==> CallStays(k, s, lva)) && CallStays(n, s, lva);
  }

  lemma WrittenUpTo(before: seq<byte>, now: seq<byte>, used: nat, reach: nat, end: nat)
    requires SameOutside(before, now, BASE + used, BASE + used + reach) && |now| == MEMORY
    requires used > ROOM ==> reach == 0
    requires used <= ROOM ==> BASE + used + reach <= end
    ensures SameOutside(before, now, BASE, Max(BASE, end))
  {
  }

  lemma StageStep(n: nat, s: seq<Attrib>, lva: bool)
    requires n < 4
    ensures var c := AddMessage(Order[n], s, Stage(n, s, lva), lva, lva);
            Stage(n + 1, s, lva) == if n == 1 then RoomAfterTalkers(c) else c
    ensures Stage(n, s, lva).Unsent? ==> Stage(n + 1, s, lva).Unsent?
    ensures Stage(0, s, lva) == Start
  {
    hide EmitMessage;
  }

  lemma HeadBuffered(station: Mvrp.mac, buf: seq<byte>, s: seq<Attrib>, lva: bool)
    requires |buf| == MEMORY && buf[0..BASE] == Head(station) && Blank(buf, BASE, MAX_FRAME_SIZE)
    ensures Buffered(station, buf, s, Start, lva) && |Start.stops| == 0 && Start.used == 0
  {
    hide Faithful;
    StartFaithful(s, lva);
    assert buf[..BASE] == buf[0..BASE];
  }

  lemma FrameDone(station: Mvrp.mac, built: seq<byte>, now: seq<byte>, s: seq<Attrib>, b: Built, lva: bool)
    requires Buffered(station, built, s, b, lva) && b.used + 2 < ROOM && |now| == |built|
    requires now == built[BASE + b.used := 0][BASE + b.used + 1 := 0]
    ensures ReadableMessages(b.messages) && now[..BASE + b.used + 2] == FrameOf(station, EncodeMessages(b.messages))
  {
    hide Faithful, EncodeMessages;
    FaithfulReads(s, b, lva);
    var end := BASE + b.used;
    FrontParts(built, now, BASE, end);
    assert now[..end + 2] == now[..BASE] + now[BASE..end] + now[end..end + 2];
    assert now[end..end + 2] == ENDMARK;
  }

  lemma SentWhen(station: Mvrp.mac, s: seq<Attrib>, lva: bool, ok: bool, used: nat)
    requires ok <==> Stage(4, s, lva).Built?
    requires ok ==> Stage(4, s, lva).used == used
    ensures TxPdu(station, s, lva, lva)
         == if ok && 0 < used && used + 2 < ROOM && ReadableMessages(Stage(4, s, lva).messages)
            then Some(FrameOf(station, EncodeMessages(Stage(4, s, lva).messages))) else None
  {
    hide BuildAll, Stage, ReadableMessages, EncodeMessages, FrameOf;
    StageIsBuild(s, lva);
    if ok {
      BuildReadable(s, lva);
    }
  }

  /** The calls for Talker Advertise and Talker Failed, and the test for room behind them. */
  method EmitTalkers(station: Mvrp.mac, s: seq<Attrib>, buf: array<byte>, lva: bool) returns (ok: bool, used: nat, ghost end: nat)
    requires Ready(station, 0, s, buf[..], 0, lva)
    modifies buf
    ensures ok <==> Stage(2, s, lva).Built?
    ensures ok ==> Ready(station, 2, s, buf[..], used, lva)
    ensures end <= MEMORY && (if ok then Inside(2, s, lva, end) else Inside(4, s, lva, end))
    ensures SameOutside(old(buf[..]), buf[..], BASE, Max(BASE, end))
  {
    hide AddMessage, Buffered, Stage, SameOutside, CallStays;
    StageStep(0, s, lva);
    StageStep(1, s, lva);
    ok, used, end := EmitStage(station, 0, s, buf, 0, lva, BASE);
    ghost var first := buf[..];
    if ok {
      ok, used, end := EmitStage(station, 1, s, buf, used, lva, end);
      ok := ok && used + 2 < ROOM;
      StillUpTo(old(buf[..]), first, buf[..], end);
    }
    if !ok {
      NoMoreCalls(s, lva, 1, 2, end);
      NoMoreCalls(s, lva, 2, 4, end);
    }
  }

  /** A call that is not made writes nothing. */
  lemma NoMoreCalls(s: seq<Attrib>, lva: bool, n: nat, m: nat, end: nat)
    requires n <= m <= 4
    ensures Stage(n, s, lva).Unsent? && Inside(n, s, lva, end) ==> Stage(m, s, lva).Unsent? && Inside(m, s, lva, end)
    decreases m - n
  {
    hide Stage, CallStays;
    if n < m && Stage(n, s, lva).Unsent? && Inside(n, s, lva, end) {
      StageStep(n, s, lva);
      UnsentStays(n, s, lva);
      assert (forall k :: 0 <= k < n + 1 ==> CallStays(k, s, lva))
        <==> (forall k :: 0 <= k < n ==> CallStays(k, s, lva)) && CallStays(n, s, lva);
      NoMoreCalls(s, lva, n + 1, m, end);
    }
  }

  lemma UnsentStays(n: nat, s: seq<Attrib>, lva: bool)
    requires n < 4 && Stage(n, s, lva).Unsent?
    ensures CallStays(n, s, lva)
  {
    hide Stage;
  }

  lemma StillUpTo(a: seq<byte>, b: seq<byte>, c: seq<byte>, end: nat)
    requires exists e: nat :: e <= end && SameOutside(a, b, BASE, Max(BASE, e))
    requires SameOutside(b, c, BASE, Max(BASE, end))
    ensures SameOutside(a, c, BASE, Max(BASE, end))
  {
  }

  /** The calls for listeners and domains. */
  method EmitOthers(station: Mvrp.mac, s: seq<Attrib>, buf: array<byte>, used0: nat, lva: bool, ghost end0: nat)
    returns (ok: bool, used: nat, ghost end: nat)
    requires Ready(station, 2, s, buf[..], used0, lva) && Inside(2, s, lva, end0) && end0 <= MEMORY
    modifies buf
    ensures ok <==> Stage(4, s, lva).Built?
    ensures ok ==> Ready(station, 4, s, buf[..], used, lva)
    ensures end0 <= end <= MEMORY && Inside(4, s, lva, end)
    ensures SameOutside(old(buf[..]), buf[..], BASE, Max(BASE, end))
  {
    hide AddMessage, Buffered, Stage, SameOutside, CallStays;
    StageStep(2, s, lva);
    StageStep(3, s, lva);
    ok, used, end := EmitStage(station, 2, s, buf, used0, lva, end0);
    ghost var first := buf[..];
    if ok {
      ok, used, end := EmitStage(station, 3, s, buf, used, lva, end);
      StillUpTo(old(buf[..]), first, buf[..], end);
    } else {
      NoMoreCalls(s, lva, 3, 4, end);
    }
  }

  /** A zeroed buffer with the Ethernet header and the protocol version in it. */
  method NewFrame(station: Mvrp.mac, ghost s: seq<Attrib>, ghost lva: bool) returns (buf: array<byte>)
    ensures fresh(buf) && buf.Length == MEMORY && Buffered(station, buf[..], s, Start, lva)
  {
    hide Buffered;
    buf := new byte[MEMORY](_ => 0);
    WriteFirst(buf, 0, MSRP_ADDR + station + MSRP_ETYPE + [0]);
    HeadBuffered(station, buf[..], s, lva);
  }

  method EmitAll(station: Mvrp.mac, s: seq<Attrib>, buf: array<byte>, lva: bool) returns (ok: bool, used: nat, ghost end: nat)
    requires Ready(station, 0, s, buf[..], 0, lva)
    modifies buf
    ensures ok <==> Stage(4, s, lva).Built?
    ensures ok ==> Ready(station, 4, s, buf[..], used, lva)
    ensures end <= MEMORY && Inside(4, s, lva, end) && SameOutside(old(buf[..]), buf[..], BASE, Max(BASE, end))
  {
    hide Buffered, Stage, SameOutside, CallStays;
    StageStep(2, s, lva);
    StageStep(3, s, lva);
    ok, used, end := EmitTalkers(station, s, buf, lva);
    ghost var first := buf[..];
    if ok {
      ok, used, end := EmitOthers(station, s, buf, used, lva, end);
      StillUpTo(old(buf[..]), first, buf[..], end);
    }
  }

  /** The second end mark. */
  method EndFrame(station: Mvrp.mac, ghost s: seq<Attrib>, buf: array<byte>, used: nat, ghost lva: bool) returns (frame: seq<byte>)
    requires Stage(4, s, lva).Built? && Stage(4, s, lva).used == used && used + 2 < ROOM
    requires Buffered(station, buf[..], s, Stage(4, s, lva), lva)
    modifies buf
    ensures ReadableMessages(Stage(4, s, lva).messages)
    ensures frame == FrameOf(station, EncodeMessages(Stage(4, s, lva).messages))
  {
    hide EncodeMessages, Buffered, FrameOf, Stage;
    ghost var built := buf[..];
    BufferedFacts(station, built, s, Stage(4, s, lva), lva);
    buf[BASE + used] := 0;
    buf[BASE + used + 1] := 0;
    frame := buf[..BASE + used + 2];
    FrameDone(station, built, buf[..], s, Stage(4, s, lva), lva);
  }

  /**
    msrp_txpdu: the frame for any list, built in place. Bytes up to `end` are written, which is
    behind the frame buffer if and only if the calls do not stay inside.
   */
  method WriteFrame(station: Mvrp.mac, s: seq<Attrib>, lva: bool) returns (frame: Option<seq<byte>>, ghost end: nat)
    ensures frame == TxPdu(station, s, lva, lva)
    ensures end <= MEMORY && (end <= MAX_FRAME_SIZE <==> StaysInside(s, lva))
  {
    hide EncodeMessages, Buffered, FrameOf, Stage, TxPdu, ReadableMessages, CallStays, SameOutside;
    var buf := NewFrame(station, s, lva);
    StartReady(station, s, buf[..], lva);
    var ok, used;
    ok, used, end := EmitAll(station, s, buf, lva);
    SentWhen(station, s, lva, ok, used);
    frame := None;
    if ok && 0 < used && used + 2 < ROOM {
      var bytes := EndFrame(station, s, buf, used, lva);
      frame := Some(bytes);
    }
  }

  lemma StartReady(station: Mvrp.mac, s: seq<Attrib>, buf: seq<byte>, lva: bool)
    requires |buf| == MEMORY && Buffered(station, buf, s, Start, lva)
    ensures Ready(station, 0, s, buf, 0, lva)
  {
    hide Buffered;
  }
}
