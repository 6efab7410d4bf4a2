/**
  Round trip of whole message lists: an MVRP PDU holds one message, an MSRP PDU one message
  per attribute type, and both end with a second end mark.
 */
module MrpduMessages {
  import opened Mrpdu
  import opened MrpduParse
  import opened MrpduRoundTrip

  predicate SmallMessage(kind: Kind, vs: seq<Vector>)
    requires AllWellFormed(kind, vs)
  {
    |EncodeVectors(kind, vs)| + 2 < 65536
  }

  predicate ReadableMessage(kind: Kind, vs: seq<Vector>) {
    && vs != [] && Readable(kind, vs) && Continues(kind, vs)
    && SmallMessage(kind, vs)
  }

  /** An MSRP message is its type and value length, the list length, and the vectors with an end mark. */
  lemma MessageParts(kind: Kind, b: seq<byte>, pos: nat, vs: seq<Vector>)
    requires kind != Vid && AllWellFormed(kind, vs) && SmallMessage(kind, vs)
    requires Has(b, pos, EncodeMessage(kind, vs))
    ensures Has(b, pos, [AttributeType(kind), FirstLength(kind)])
    ensures Has(b, pos + 2, Word(|EncodeVectors(kind, vs)| + 2))
    ensures Has(b, pos + 4, EncodeVectors(kind, vs) + ENDMARK)
  {
    hide EncodeVectors, Has, AllWellFormed;
    var body := EncodeVectors(kind, vs) + ENDMARK;
    var head: seq<byte> := [AttributeType(kind), FirstLength(kind)];
    assert EncodeMessage(kind, vs) == head + Word(|body|) + body;
    HasSplit(b, pos, head + Word(|body|), body);
    HasSplit(b, pos, head, Word(|body|));
  }

  lemma FirstVectorFits(kind: Kind, vs: seq<Vector>)
    requires vs != [] && AllWellFormed(kind, vs)
    ensures |EncodeVectors(kind, vs)| >= FirstLength(kind) + 2
  {
    hide Pack3, Pack4, VectorHeader;
    assert |EncodeVectors(kind, vs)| >= |EncodeVector(kind, vs[0])|;
  }

  lemma HeadRead(b: seq<byte>, pos: nat, x: byte, y: byte)
    requires Has(b, pos, [x, y])
    ensures At(b, pos) == x && At(b, pos + 1) == y
  {
    HasAt(b, pos, [x, y], 0);
    HasAt(b, pos, [x, y], 1);
  }

  /** The AttributeListLength the emitters write always passes the receiver's check. */
  lemma ListLengthAccepted(kind: Kind, b: seq<byte>, pos: nat, vs: seq<Vector>)
    requires kind != Vid && ReadableMessage(kind, vs)
    requires Has(b, pos, EncodeMessage(kind, vs))
    ensures ListLengthOk(b, pos + 2)
    ensures Has(b, pos + 4, EncodeVectors(kind, vs) + ENDMARK)
    ensures At(b, pos) == AttributeType(kind) && At(b, pos + 1) == FirstLength(kind)
  {
    hide EncodeVectors, EncodeMessage, Has, WordAt, At, Word;
    MessageParts(kind, b, pos, vs);
    HeadRead(b, pos, AttributeType(kind), FirstLength(kind));
    WordRead(b, pos + 2, |EncodeVectors(kind, vs)| + 2);
    HasSplit(b, pos + 4, EncodeVectors(kind, vs), ENDMARK);
    EndMarkRead(b, pos + 4 + |EncodeVectors(kind, vs)|);
    FirstVectorFits(kind, vs);
  }

  lemma WordRead(b: seq<byte>, pos: nat, n: nat)
    requires n < 65536 && Has(b, pos, Word(n))
    ensures WordAt(b, pos) == n
  {
    HasAt(b, pos, Word(n), 0);
    HasAt(b, pos, Word(n), 1);
  }

  lemma EndMarkRead(b: seq<byte>, pos: nat)
    requires Has(b, pos, ENDMARK)
    ensures WordAt(b, pos) == 0 && pos + 2 <= |b|
  {
    HasAt(b, pos, ENDMARK, 0);
    HasAt(b, pos, ENDMARK, 1);
  }

  // ---------------------------------------------------------------- MVRP

  lemma MvrpHead(b: seq<byte>, vs: seq<Vector>)
    requires AllWellFormed(Vid, vs) && SmallMessage(Vid, vs)
    requires b == EncodeMessage(Vid, vs) + ENDMARK
    ensures |b| == |EncodeVectors(Vid, vs)| + 6
    ensures b[0] == AttributeType(Vid) && b[1] == FirstLength(Vid) && WordAt(b, 0) != 0
    ensures Has(b, 2, EncodeVectors(Vid, vs) + ENDMARK)
    ensures Has(b, |b| - 4, ENDMARK)
  {
    var body := EncodeVectors(Vid, vs) + ENDMARK;
    var head: seq<byte> := [AttributeType(Vid), FirstLength(Vid)];
    assert b == head + body + ENDMARK;
    assert b[2..2 + |body|] == body;
    assert b[|b| - 4..|b| - 2] == ENDMARK;
  }

  lemma MvrpTail(version: byte, b: seq<byte>, saw: bool)
    requires |b| >= 4 && Has(b, |b| - 4, ENDMARK)
    ensures ParseMvrp(version, b, |b| - 4, 0, saw) == Received(true, [])
  {
    hide ParseVectors, WordAt, NumValues, Has;
    EndMarkRead(b, |b| - 4);
    assert ParseMvrp(version, b, |b| - 2, 1, saw) == Received(true, []);
  }

  /** One turn of the receive loop on an MVRP message whose vectors parse. */
  lemma MvrpTurn(version: byte, b: seq<byte>, p: Parsed)
    requires |b| > 2 && WordAt(b, 0) != 0 && b[0] == AttributeType(Vid) && b[1] == FirstLength(Vid)
    requires ParseVectors(Vid, b, 2, false) == p && p.ok && 2 <= p.pos
    ensures ParseMvrp(version, b, 0, 0, false) == Prepend(p.out, ParseMvrp(version, b, p.pos, 0, p.saw))
  {
    hide ParseVectors, WordAt, NumValues;
  }

  /** Receiving an MVRP message list gives exactly its meaning, from either version's header. */
  lemma MvrpMessageRead(version: byte, vs: seq<Vector>)
    requires ReadableMessage(Vid, vs)
    ensures ParseMvrp(version, EncodeMessage(Vid, vs) + ENDMARK, 0, 0, false) == Received(true, Meaning(Vid, vs, false))
  {
    var b := EncodeMessage(Vid, vs) + ENDMARK;
    hide EncodeMessage, EncodeVectors, ParseVectors, ParseMvrp, Meaning, Has, WordAt, Readable, Continues, AnyLva;
    hide SmallMessage;
    MvrpHead(b, vs);
    VectorsRead(Vid, b, 2, vs, false);
    MvrpTurn(version, b, ParseVectors(Vid, b, 2, false));
    MvrpTail(version, b, AnyLva(vs));
  }

  /** The MVRP receiver stops at an empty LeaveAll vector, after dispatching the LeaveAll. */
  lemma MvrpEmptyLeaveAllRead(version: byte, first: seq<byte>)
    requires |first| == 2
    ensures ParseMvrp(version, EncodeMessage(Vid, [Vector(true, first, [], [])]) + ENDMARK, 0, 0, false)
         == Received(false, [LeaveAll(Vid)])
  {
    var v := Vector(true, first, [], []);
    var b := EncodeMessage(Vid, [v]) + ENDMARK;
    assert EncodeVectors(Vid, [v]) == EncodeVector(Vid, v);
    MvrpHead(b, [v]);
    HasSplit(b, 2, EncodeVector(Vid, v), ENDMARK);
    VectorParts(Vid, b, 2, v);
    HeaderRead(b, 2, true, 0);
    assert ParseVectors(Vid, b, 2, false) == Parsed(false, 2, true, [LeaveAll(Vid)]);
  }

  // ---------------------------------------------------------------- MSRP

  datatype Message = Message(kind: Kind, vectors: seq<Vector>)

  predicate ReadableMessages(ms: seq<Message>) {
    forall i :: 0 <= i < |ms| ==> ms[i].kind != Vid && ReadableMessage(ms[i].kind, ms[i].vectors)
  }

  function EncodeMessages(ms: seq<Message>): seq<byte>
    requires ReadableMessages(ms)
  {
    if ms == [] then [] else EncodeMessage(ms[0].kind, ms[0].vectors) + EncodeMessages(ms[1..])
  }

  /** Each type's first LeaveAll is dispatched before that type's values. */
  function MeaningOf(ms: seq<Message>, saw: set<Kind>): seq<Dispatch>
    requires ReadableMessages(ms)
  {
    if ms == [] then []
    else
      var kind := ms[0].kind;
      Meaning(kind, ms[0].vectors, kind in saw) +
      MeaningOf(ms[1..], if AnyLva(ms[0].vectors) then saw + {kind} else saw)
  }

  lemma KindOfAttributeType(kind: Kind)
    requires kind != Vid
    ensures 1 <= AttributeType(kind) <= 4 && KindOfType(AttributeType(kind)) == kind
  {
  }

  lemma MessageRead(b: seq<byte>, pos: nat, m: Message, endmarks: nat, saw: set<Kind>)
    requires m.kind != Vid && ReadableMessage(m.kind, m.vectors)
    requires Has(b, pos, EncodeMessage(m.kind, m.vectors))
    requires pos + |EncodeMessage(m.kind, m.vectors)| + 2 <= |b|
    ensures ParseMsrp(b, pos, endmarks, saw)
         == Prepend(Meaning(m.kind, m.vectors, m.kind in saw),
                  ParseMsrp(b, pos + |EncodeMessage(m.kind, m.vectors)|, 1,
                            if AnyLva(m.vectors) then saw + {m.kind} else saw))
  {
    hide EncodeVectors, ParseVectors, Meaning, Has, AnyLva, ListLengthOk;
    var kind, vs := m.kind, m.vectors;
    ListLengthAccepted(kind, b, pos, vs);
    KindOfAttributeType(kind);
    VectorsRead(kind, b, pos + 4, vs, kind in saw);
    var end := pos + 4 + |EncodeVectors(kind, vs)|;
    HasSplit(b, pos + 4, EncodeVectors(kind, vs), ENDMARK);
    EndMarkRead(b, end);
    var saw1 := if (kind in saw) || AnyLva(vs) then saw + {kind} else saw;
    assert saw1 == if AnyLva(vs) then saw + {kind} else saw;
    assert ParseMsrp(b, end, 0, saw1) == ParseMsrp(b, end + 2, 1, saw1);
  }

  lemma {:induction false} MessagesRead(b: seq<byte>, pos: nat, ms: seq<Message>, endmarks: nat, saw: set<Kind>)
    requires ReadableMessages(ms)
    requires Has(b, pos, EncodeMessages(ms) + ENDMARK) && pos + |EncodeMessages(ms)| + 2 == |b|
    ensures ParseMsrp(b, pos, endmarks, saw) == Received(true, MeaningOf(ms, saw))
    decreases |ms|
  {
    if ms == [] {
    } else {
      hide EncodeMessage, Meaning, Has, AnyLva, ParseMsrp, ReadableMessage;
      var m, rest := ms[0], EncodeMessages(ms[1..]) + ENDMARK;
      assert EncodeMessages(ms) + ENDMARK == EncodeMessage(m.kind, m.vectors) + rest;
      HasSplit(b, pos, EncodeMessage(m.kind, m.vectors), rest);
      MessageRead(b, pos, m, endmarks, saw);
      MessagesRead(b, pos + |EncodeMessage(m.kind, m.vectors)|, ms[1..], 1,
                   if AnyLva(m.vectors) then saw + {m.kind} else saw);
    }
  }

  /** Receiving an MSRP message list gives exactly what its messages mean, in order. */
  lemma MsrpMessagesRead(ms: seq<Message>)
    requires ReadableMessages(ms)
    ensures ParseMsrp(EncodeMessages(ms) + ENDMARK, 0, 0, {}) == Received(true, MeaningOf(ms, {}))
  {
    hide EncodeMessages, MeaningOf, ParseMsrp;
    MessagesRead(EncodeMessages(ms) + ENDMARK, 0, ms, 0, {});
  }
}
