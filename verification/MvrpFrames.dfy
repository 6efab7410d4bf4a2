/**
  MVRP frames end to end: what a receiver makes of the frame a sender builds from its list.
 */
module MvrpFrames {
  import opened Mrpdu
  import opened MrpduParse
  import opened MrpduRoundTrip
  import opened MrpduMessages
  import opened Emission
  import opened EmissionMeaning
  import opened EmissionFits
  import opened Mvrp

  /** mvrp_recv_msg: a frame that is too short, or not addressed and typed as MVRP, is dropped. */
  function ReceiveFrame(frame: seq<byte>): Received {
    if |frame| < ETHERNET + 3 || frame[12..14] != MVRP_ETYPE || frame[..6] != MVRP_ADDR then Received(false, [])
    else ParseMvrp(frame[ETHERNET], frame[ETHERNET + 1..], 0, 0, false)
  }

  lemma Slice(a: seq<byte>, b: seq<byte>, i: nat, j: nat)
    requires i <= j <= |a|
    ensures (a + b)[i..j] == a[i..j]
  {
  }

  lemma Beyond(a: seq<byte>, b: seq<byte>, c: seq<byte>)
    requires a != []
    ensures (a + b + c)[|a| - 1] == a[|a| - 1] && (a + b + c)[|a|..] == b + c && a + b + c == a + (b + c)
  {
  }

  lemma HeaderSlices(station: mac)
    ensures var head := MVRP_ADDR + station + MVRP_ETYPE + [0];
            && |head| == 15 && head[14] == 0
            && head[0..6] == MVRP_ADDR && head[6..12] == station && head[12..14] == MVRP_ETYPE
  {
  }

  lemma ReceiveOwnFrame(station: mac, message: seq<byte>)
    requires |message| >= 2
    ensures ReceiveFrame(FrameOf(station, message)) == ParseMvrp(0, message + ENDMARK, 0, 0, false)
    ensures FrameOf(station, message)[6..12] == station
  {
    hide ParseMvrp;
    var f, head := FrameOf(station, message), MVRP_ADDR + station + MVRP_ETYPE + [0];
    HeaderSlices(station);
    Beyond(head, message, ENDMARK);
    Slice(head, message + ENDMARK, 0, 6);
    Slice(head, message + ENDMARK, 6, 12);
    Slice(head, message + ENDMARK, 12, 14);
    assert f[..6] == f[0..6];
  }

  // ---------------------------------------------------------------- Items of a sorted list

  lemma VidKeys(v: vid)
    ensures |VidBytes(v)| == 2 && VidOf(VidBytes(v)) == v
  {
  }

  lemma ItemsAscend(s: seq<Attrib>)
    requires Sorted(s)
    ensures Ascending(Vid, ItemsOf(s))
  {
    var items := ItemsOf(s);
    forall a, b | 0 <= a < b < |items| ensures VidOf(items[a].key) < VidOf(items[b].key) {
      VidKeys(s[a].vid);
      VidKeys(s[b].vid);
    }
  }

  /** The events a sorted list puts on the wire, up to where the frame was full. */
  function SentValues(s: seq<Attrib>, stop: nat): seq<Dispatch>
    requires stop <= |s| && Sent(Vid, ItemsOf(s), SentIndices(Vid, ItemsOf(s), 0, stop))
  {
    ValuesOf(Vid, ItemsOf(s), SentIndices(Vid, ItemsOf(s), 0, stop))
  }

  ghost predicate Stops(s: seq<Attrib>, lva: bool, sendEmpty: bool, stop: nat) {
    && stop <= |s| && Sent(Vid, ItemsOf(s), SentIndices(Vid, ItemsOf(s), 0, stop))
    && var em := EmitMessage(Vid, ItemsOf(s), ROOM, lva, sendEmpty);
       em.Emitted? && em.stop == stop
  }

  lemma EmptyReadBack(station: mac)
    ensures var m := EncodeMessage(Vid, [EmptyLeaveAll(Vid)]);
            ReceiveFrame(FrameOf(station, m)) == Received(false, [LeaveAll(Vid)])
  {
    hide ParseMvrp;
    var v := EmptyLeaveAll(Vid);
    assert v == Vector(true, v.first, [], []);
    MvrpEmptyLeaveAllRead(0, v.first);
    ReceiveOwnFrame(station, EncodeMessage(Vid, [v]));
  }

  lemma VectorsReadBack(station: mac, vs: seq<Vector>)
    requires ReadableMessage(Vid, vs)
    ensures ReceiveFrame(FrameOf(station, EncodeMessage(Vid, vs))) == Received(true, Meaning(Vid, vs, false))
  {
    hide ParseMvrp, EncodeMessage, Meaning;
    MvrpMessageRead(0, vs);
    MessageLong(vs);
    ReceiveOwnFrame(station, EncodeMessage(Vid, vs));
  }

  lemma MessageLong(vs: seq<Vector>)
    requires ReadableMessage(Vid, vs)
    ensures |EncodeMessage(Vid, vs)| >= 2
  {
    hide EncodeVectors;
  }

  /**
    MVRP wire round trip: for every sorted list, receiving the frame built from it dispatches
    one LeaveAll if one was due and then exactly the sent (VID, event) sequence.
   */
  lemma FrameRoundTrip(station: mac, s: seq<Attrib>, lva: bool, sendEmpty: bool)
    requires Sorted(s) && TxPdu(station, s, lva, sendEmpty).Some? && (sendEmpty ==> lva)
    ensures exists stop :: Stops(s, lva, sendEmpty, stop)
                           && ReceiveFrame(TxPdu(station, s, lva, sendEmpty).value).out
                              == (if lva then [LeaveAll(Vid)] else []) + SentValues(s, stop)
  {
    hide EmitFrom, EncodeMessage, EncodeVectors, Meaning, ReceiveFrame, FrameOf, SentIndices, ValuesOf, Sent, Readable, AllWellFormed;
    var items := ItemsOf(s);
    ItemsAscend(s);
    var em := EmitFrom(Vid, items, 0, 0, ROOM, lva);
    EmittedShape(Vid, items, 0, 0, ROOM, lva);
    EmittedMeaning(Vid, items, 0, 0, ROOM, lva, false);
    EmittedReadable(items, lva);
    assert Stops(s, lva, sendEmpty, em.stop);
    if em.vectors == [] {
      EmptyReadBack(station);
      NoVectorsNoValues(items, em.stop, lva);
    } else {
      VectorsReadBack(station, em.vectors);
    }
  }

  lemma EmittedReadable(items: seq<Item>, lva: bool)
    requires Keyed(Vid, items) && Ascending(Vid, items) && EmitFrom(Vid, items, 0, 0, ROOM, lva).Emitted?
    ensures var vs := EmitFrom(Vid, items, 0, 0, ROOM, lva).vectors; vs != [] ==> ReadableMessage(Vid, vs)
  {
    hide EmitFrom;
    EmittedShape(Vid, items, 0, 0, ROOM, lva);
    EmitFromWellFormed(Vid, items, 0, 0, ROOM, lva);
  }

  lemma NoVectorsNoValues(items: seq<Item>, stop: nat, lva: bool)
    requires Keyed(Vid, items) && stop <= |items| && Means(Vid, items, 0, Emitted([], stop), lva, false)
    ensures ValuesOf(Vid, items, SentIndices(Vid, items, 0, stop)) == []
  {
    hide SentIndices;
    var nothing: seq<Dispatch> := [];
    assert nothing + ValuesOf(Vid, items, SentIndices(Vid, items, 0, stop)) == ValuesOf(Vid, items, SentIndices(Vid, items, 0, stop));
  }

  // ---------------------------------------------------------------- Does the frame hold everything?

  /** Bytes of the vectors for everything that is due in the list. */
  function DueBytes(s: seq<Attrib>): nat {
    FullSize(Vid, ItemsOf(s), 0)
  }

  /** The frame was sent and holds every attribute that had to be sent. */
  ghost predicate FrameHoldsAll(station: mac, s: seq<Attrib>, lva: bool, sendEmpty: bool) {
    && TxPdu(station, s, lva, sendEmpty).Some?
    && NoneDue(ItemsOf(s), EmitMessage(Vid, ItemsOf(s), ROOM, lva, sendEmpty).stop)
  }

  /**
    A frame that holds everything goes out exactly when the vectors, the type and length
    bytes and the two end marks stay below the room there is, and there is something to send.
   */
  lemma FrameHoldsAllIff(station: mac, s: seq<Attrib>, lva: bool, sendEmpty: bool)
    requires Sendable(ItemsOf(s), 0, |s|)
    ensures FrameHoldsAll(station, s, lva, sendEmpty)
       <==> (DueBytes(s) > 0 || sendEmpty) && DueBytes(s) + 6 < ROOM
  {
    hide EmitFrom, EncodeVectors, EncodeVector, FullSize;
    var items := ItemsOf(s);
    var em := EmitFrom(Vid, items, 0, 0, ROOM, lva);
    if DueBytes(s) + 6 < ROOM {
      EverythingFits(Vid, items, 0, 0, ROOM, lva);
    }
    if em.Emitted? && NoneDue(items, em.stop) {
      EmitFromWellFormed(Vid, items, 0, 0, ROOM, lva);
      CompleteSize(Vid, items, 0, 0, ROOM, lva);
      if em.vectors == [] {
        EmptySize();
      } else {
        NonEmptySize(em.vectors);
        MessageSize(em.vectors);
      }
    }
  }

  lemma EmptySize()
    ensures AllWellFormed(Vid, []) && |EncodeVectors(Vid, [])| == 0
    ensures AllWellFormed(Vid, [EmptyLeaveAll(Vid)]) && |EncodeVectors(Vid, [EmptyLeaveAll(Vid)])| == 4
    ensures |EncodeMessage(Vid, [EmptyLeaveAll(Vid)])| == 8
  {
    assert |EncodeVector(Vid, EmptyLeaveAll(Vid))| == 4;
  }

  lemma NonEmptySize(vs: seq<Vector>)
    requires AllWellFormed(Vid, vs) && vs != []
    ensures |EncodeVectors(Vid, vs)| > 0
  {
    assert EncodeVectors(Vid, vs) == EncodeVector(Vid, vs[0]) + EncodeVectors(Vid, vs[1..]);
  }

  lemma MessageSize(vs: seq<Vector>)
    requires AllWellFormed(Vid, vs) && |EncodeVectors(Vid, vs)| + 2 < 65536
    ensures |EncodeMessage(Vid, vs)| == |EncodeVectors(Vid, vs)| + 4
  {
    hide EncodeVectors;
  }
}
