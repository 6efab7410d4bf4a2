/**
  MSRP frames that are almost full: exactly when the four emitter calls stay inside the frame,
  and a run of client commands after which one of them does not.
 */
module MsrpReach {
  import opened Mrp
  import opened Mrpdu
  import opened Emission
  import opened EmissionFits
  import opened EmissionReach
  import AttribList
  import Mvrp
  import opened Msrp
  import opened MsrpWire
  import opened MsrpFrames

  /** Every emitter call that msrp_txpdu makes for the list stays in the room left for it. */
  ghost predicate StaysInside(s: seq<Attrib>, lva: bool) {
    forall k :: 0 <= k < 4 ==> CallStays(k, s, lva)
  }

  predicate CallStays(k: nat, s: seq<Attrib>, lva: bool)
    requires k < 4
  {
    var b := Stage(k, s, lva);
    b.Built? && b.used <= ROOM ==> Reach(Order[k], ItemsOf(Order[k], s), ROOM - b.used, lva, lva) <= ROOM - b.used
  }

  predicate CallSuffices(k: nat, s: seq<Attrib>, lva: bool)
    requires k < 4
  {
    var b := Stage(k, s, lva);
    b.Built? && b.used <= ROOM ==> RoomSuffices(Order[k], ItemsOf(Order[k], s), ROOM - b.used, lva)
  }

  /** The frame of any list is written inside its buffer if and only if each type's room suffices in turn. */
  lemma StaysInsideIff(s: seq<Attrib>, lva: bool)
    ensures StaysInside(s, lva) <==> forall k :: 0 <= k < 4 ==> CallSuffices(k, s, lva)
  {
    hide CallStays, CallSuffices;
    forall k | 0 <= k < 4 ensures CallStays(k, s, lva) == CallSuffices(k, s, lva) {
      CallIff(k, s, lva);
    }
  }

  lemma CallIff(k: nat, s: seq<Attrib>, lva: bool)
    requires k < 4
    ensures CallStays(k, s, lva) == CallSuffices(k, s, lva)
  {
    hide Stage, Reach, RoomSuffices;
    var b := Stage(k, s, lva);
    if b.Built? && b.used <= ROOM {
      ReachIff(Order[k], ItemsOf(Order[k], s), ROOM - b.used, lva, lva);
    }
  }

  // ---------------------------------------------------------------- Lists of attributes that do not join up

  /** The attributes of the type are those from `lo` to `hi`; each must be sent and none continues another. */
  ghost predicate Singles(kind: Kind, items: seq<Item>, lo: nat, hi: nat) {
    && Keyed(kind, items) && lo <= hi <= |items|
    && (forall j :: 0 <= j < |items| ==> (items[j].mine <==> lo <= j < hi))
    && (forall j :: lo <= j < hi ==> Leads(items[j]))
    && (forall j :: lo < j < hi ==> items[j].key != NextKey(kind, items[j - 1].key))
  }

  function Left(lo: nat, hi: nat, i: nat): nat
    requires lo <= hi
  {
    if i < lo then hi - lo else if i < hi then hi - i else 0
  }

  lemma {:induction false} SinglesSize(kind: Kind, items: seq<Item>, lo: nat, hi: nat, i: nat)
    requires Singles(kind, items, lo, hi) && i <= |items|
    ensures FullSize(kind, items, i) == VectorLength(kind, 1) * Left(lo, hi, i)
    decreases |items| - i
  {
    hide NextKey, VectorLength, RunEnd;
    if i < |items| {
      SinglesSize(kind, items, lo, hi, i + 1);
      if lo <= i < hi {
        SingleEnds(kind, items, lo, hi, i);
        OneTimesMore(VectorLength(kind, 1), Left(lo, hi, i + 1));
      } else {
        assert !Leads(items[i]);
      }
    }
  }

  lemma OneTimesMore(v: nat, n: nat)
    ensures v * (n + 1) == v * n + v
  {
  }

  lemma SingleEnds(kind: Kind, items: seq<Item>, lo: nat, hi: nat, i: nat)
    requires Singles(kind, items, lo, hi) && lo <= i < hi
    ensures RunEnd(kind, items, i + 1) == i + 1
  {
    hide NextKey;
  }

  // ---------------------------------------------------------------- The run

  const TALKERS := 68
  const LISTENERS := 5
  const ALL := TALKERS + LISTENERS + 1

  type small = k: int | 0 <= k < 74

  /** Stream IDs two apart, so that no two are contiguous. */
  function Id(i: small): id8 {
    [0, 0, 0, 0, 0, 0, 0, 2 * i]
  }

  function KindAt(k: small): Kind {
    if k < TALKERS then TalkerAdv else if k < TALKERS + LISTENERS then Listener else Domain
  }

  /** The k-th declaration: 68 talkers, 5 ready listeners, a domain. */
  function Declaration(k: small): Attrib {
    if k < TALKERS then Fresh(TalkerAdv, Id(k), []).(declare := true)
    else if k < TALKERS + LISTENERS then Fresh(Listener, Id(k - TALKERS), []).(declare := true, sub := 2)
    else Fresh(Domain, NoTalker.streamId, []).(domain := SrDomain(6, 3, 3, 2))
  }

  /** The commands S+?, S+L and S+D. */
  function CommandEvent(k: small): Event {
    if KindAt(k) == Listener then New else Join
  }

  function Commands(n: nat): (r: seq<Input>)
    requires n <= ALL
    ensures |r| == n
  {
    seq<Input>(n, k requires 0 <= k < n => Apply(CommandEvent(k), Declaration(k)))
  }

  function Declared(p2p: bool, k: small): Attrib {
    Calmed(Handled(p2p, Declaration(k), CommandEvent(k)))
  }

  function List(p2p: bool, n: nat): (r: seq<Attrib>)
    requires n <= ALL
    ensures |r| == n
  {
    seq<Attrib>(n, k requires 0 <= k < n => Declared(p2p, k))
  }

  lemma DeclaredIs(p2p: bool, k: small)
    ensures var a := Declared(p2p, k);
            && a.kind == KindAt(k) && a.talker == Declaration(k).talker && a.domain == Declaration(k).domain
            && a.sub == Declaration(k).sub && a.reg.notify == NotifyNone
            && a.app.state == (if KindAt(k) == Listener then VN else VP)
            && !Reclaimable(Handled(p2p, Declaration(k), CommandEvent(k)))
  {
  }

  lemma CommandsPossible(n: nat)
    requires n <= ALL
    ensures PossibleRun(Commands(n))
  {
  }

  lemma KeysDiffer(p2p: bool, j: small, k: small)
    requires j < k
    ensures KeyOf(Declared(p2p, j)) != KeyOf(Declaration(k))
  {
    DeclaredIs(p2p, j);
    if KindAt(j) == KindAt(k) {
      assert Id(if k < TALKERS then j else j - TALKERS)[7] != Id(if k < TALKERS then k else k - TALKERS)[7];
    }
  }

  lemma {:induction false} AppendPos(s: seq<Attrib>, r: Attrib, i: nat)
    requires i <= |s|
    requires forall j :: i <= j < |s| && s[j].kind == r.kind ==> Precedes(s[j], r) && (j + 1 < |s| ==> s[j + 1].kind == r.kind)
    ensures AddPos(s, r, i) == |s|
    decreases |s| - i
  {
    hide Precedes;
    if i < |s| {
      AppendPos(s, r, i + 1);
    }
  }

  lemma IdsAscend(i: small, j: small)
    requires i < j
    ensures AttribList.MemCmp(Id(i), Id(j)) < 0
  {
    AttribList.MemCmpIsNumeric(Id(i), Id(j));
    IdValue(i);
    IdValue(j);
  }

  lemma IdValue(i: small)
    ensures BigEndian(Id(i)) == 2 * i
  {
    var zeros: seq<byte> := [0, 0, 0, 0, 0, 0, 0];
    assert Id(i)[..7] == zeros;
    assert zeros[..6] == [0, 0, 0, 0, 0, 0] && zeros[..5] == [0, 0, 0, 0, 0] && zeros[..4] == [0, 0, 0, 0];
    ZerosValue(zeros);
  }

  lemma {:induction false} ZerosValue(s: seq<byte>)
    requires forall k :: 0 <= k < |s| ==> s[k] == 0
    ensures BigEndian(s) == 0
  {
    if s != [] {
      ZerosValue(s[..|s| - 1]);
    }
  }

  lemma PlaceAtEnd(p2p: bool, n: small)
    ensures AddPos(List(p2p, n), Declaration(n), 0) == n
  {
    hide KeyOf, Declared;
    var s, r := List(p2p, n), Declaration(n);
    hide Precedes;
    forall j | 0 <= j < n && s[j].kind == r.kind ensures Precedes(s[j], r) && (j + 1 < n ==> s[j + 1].kind == r.kind) {
      BeforeNew(p2p, n, j);
    }
    AppendPos(s, r, 0);
  }

  lemma BeforeNew(p2p: bool, n: small, j: nat)
    requires j < n && List(p2p, n)[j].kind == Declaration(n).kind
    ensures Precedes(List(p2p, n)[j], Declaration(n))
    ensures j + 1 < n ==> List(p2p, n)[j + 1].kind == Declaration(n).kind
  {
    hide KeyOf, Declared, Id, AttribList.MemCmp;
    DeclaredIs(p2p, j);
    if j + 1 < n {
      DeclaredIs(p2p, j + 1);
    }
    if n < TALKERS {
      IdsAscend(j, n);
    } else if n < TALKERS + LISTENERS {
      IdsAscend(j - TALKERS, n - TALKERS);
    }
  }

  /** One more command appends one more attribute. */
  lemma OneMore(p2p: bool, n: small, db: Db)
    requires db.attribs == List(p2p, n) && !db.pruning
    ensures var after := ApplyStep(p2p, db, CommandEvent(n), Declaration(n));
            after.attribs == List(p2p, n + 1) && !after.pruning
  {
    hide KeyOf, Handled, Reclaimable, StartsLeaveTimer, RegistrarEvent, Declaration, Merged;
    var s, r, e := db.attribs, Declaration(n), CommandEvent(n);
    forall k | 0 <= k < n ensures KeyOf(s[k]) != KeyOf(r) {
      KeysDiffer(p2p, k, n);
    }
    assert Find(s, KeyOf(r)) == n;
    PlaceAtEnd(p2p, n);
    DeclaredIs(p2p, n);
    var b := Handled(p2p, r, e);
    assert Added(s, r) == s + [r];
    assert (s + [r])[n := b] == s + [b];
    assert Touched(p2p, s + [r], n, e) == s + [b];
    forall k | 0 <= k < n ensures Calmed(s[k]) == s[k] {
      DeclaredIs(p2p, k);
    }
    assert CalmedAll(s + [b]) == List(p2p, n + 1);
  }

  lemma {:induction false} AfterCommands(p2p: bool, n: nat)
    requires n <= ALL
    ensures var db := After(p2p, false, Commands(n)); db.attribs == List(p2p, n) && !db.pruning
  {
    hide ApplyStep, List;
    if n == 0 {
      assert List(p2p, 0) == [];
    } else {
      assert Commands(n)[..n - 1] == Commands(n - 1);
      AfterCommands(p2p, n - 1);
      OneMore(p2p, n - 1, After(p2p, false, Commands(n - 1)));
    }
  }

  // ---------------------------------------------------------------- The next transmit opportunity

  function Sending(p2p: bool): (w: seq<Attrib>)
    ensures |w| == ALL
  {
    WalkedAll(p2p, List(p2p, ALL), Tx, None)
  }

  lemma SendingAt(p2p: bool, k: small)
    ensures var w := Sending(p2p)[k];
            && w.kind == KindAt(k) && w.talker == Declaration(k).talker && w.app.tx && !w.app.optional
            && Mvrp.EventCode(w.app.snd, w.reg.state).Some?
  {
    hide Declared, Declaration;
    DeclaredIs(p2p, k);
    assert Sending(p2p)[k] == Walked(p2p, Declared(p2p, k), Tx, None);
  }

  lemma NextOfId(i: small)
    requires i < 73
    ensures Increment(Id(i)) != Id(i + 1)
  {
    assert Increment(Id(i)) == Carry(Id(i), 7);
    assert Carry(Id(i), 7)[7] == 2 * i + 1;
  }

  lemma TalkersApart(a: Talker, b: Talker, i: small)
    requires i < 73 && a.streamId == Id(i) && b.streamId == Id(i + 1)
    ensures TalkerBytes(b) != NextKey(TalkerAdv, TalkerBytes(a))
  {
    hide TalkerBytes, Id, Increment;
    TalkerFields(a);
    TalkerFields(b);
    NextOfId(i);
    var key := TalkerBytes(a);
    assert key[..8] == key[0..8];
    assert NextKey(TalkerAdv, key)[0..8] == Increment(key[..8]);
  }

  lemma TalkerItems(p2p: bool)
    ensures Singles(TalkerAdv, ItemsOf(TalkerAdv, Sending(p2p)), 0, TALKERS)
  {
    hide Declaration, Sending, NextKey, TalkerBytes, KeyBytes;
    var w, items := Sending(p2p), ItemsOf(TalkerAdv, Sending(p2p));
    forall j | 0 <= j < |items| ensures (items[j].mine <==> j < TALKERS) && (j < TALKERS ==> Leads(items[j])) {
      SendingAt(p2p, j);
    }
    forall j | 0 < j < TALKERS ensures items[j].key != NextKey(TalkerAdv, items[j - 1].key) {
      SendingAt(p2p, j - 1);
      SendingAt(p2p, j);
      TalkerIds(j - 1);
      TalkerIds(j);
      KeyOfTalker(w[j - 1]);
      KeyOfTalker(w[j]);
      TalkersApart(w[j - 1].talker, w[j].talker, j - 1);
    }
  }

  lemma TalkerIds(j: small)
    ensures j < TALKERS ==> Declaration(j).talker.streamId == Id(j)
    ensures TALKERS <= j < TALKERS + LISTENERS ==> Declaration(j).talker.streamId == Id(j - TALKERS)
  {
  }

  lemma KeyOfTalker(a: Attrib)
    ensures KeyBytes(TalkerAdv, a) == TalkerBytes(a.talker) && KeyBytes(Listener, a) == a.talker.streamId
  {
  }

  lemma ListenerItems(p2p: bool)
    ensures Singles(Listener, ItemsOf(Listener, Sending(p2p)), TALKERS, TALKERS + LISTENERS)
  {
    hide Declaration, Sending, Increment, TalkerBytes, KeyBytes, Id;
    var w, items := Sending(p2p), ItemsOf(Listener, Sending(p2p));
    forall j | 0 <= j < |items|
      ensures items[j].mine <==> TALKERS <= j < TALKERS + LISTENERS
      ensures items[j].mine ==> Leads(items[j])
    {
      SendingAt(p2p, j);
    }
    forall j | TALKERS < j < TALKERS + LISTENERS ensures items[j].key != NextKey(Listener, items[j - 1].key) {
      SendingAt(p2p, j - 1);
      SendingAt(p2p, j);
      TalkerIds(j - 1);
      TalkerIds(j);
      KeyOfTalker(w[j - 1]);
      KeyOfTalker(w[j]);
      NextOfId(j - 1 - TALKERS);
    }
  }

  lemma FailedItems(p2p: bool)
    ensures Singles(TalkerFailed, ItemsOf(TalkerFailed, Sending(p2p)), 0, 0)
  {
    hide Declaration, Sending, KeyBytes;
    forall j | 0 <= j < ALL ensures !ItemsOf(TalkerFailed, Sending(p2p))[j].mine {
      SendingAt(p2p, j);
    }
  }

  lemma DomainLead(p2p: bool)
    ensures FirstLead(ItemsOf(Domain, Sending(p2p)), 0) < ALL
  {
    hide Declaration, Sending, KeyBytes;
    SendingAt(p2p, ALL - 1);
    assert Leads(ItemsOf(Domain, Sending(p2p))[ALL - 1]);
  }

  lemma SendingEncodable(p2p: bool)
    ensures Encodable(Sending(p2p))
  {
    hide Declaration, Sending;
    forall k | 0 <= k < ALL ensures Mvrp.EventCode(Sending(p2p)[k].app.snd, Sending(p2p)[k].reg.state).Some? {
      SendingAt(p2p, k);
    }
  }

  /** 68 vectors of 28 bytes and 5 of 12, with two message headers and end marks. */
  lemma SendingBytes(p2p: bool)
    ensures var w := Sending(p2p);
            BytesBefore(1, w, false) == 1910 && BytesBefore(2, w, false) == 1910 && BytesBefore(3, w, false) == 1976
  {
    hide Sending, Declaration, FullSize, ItemsOf, Singles;
    var w := Sending(p2p);
    TalkerItems(p2p);
    FailedItems(p2p);
    ListenerItems(p2p);
    SinglesSize(TalkerAdv, ItemsOf(TalkerAdv, w), 0, TALKERS, 0);
    SinglesSize(TalkerFailed, ItemsOf(TalkerFailed, w), 0, 0, 0);
    SinglesSize(Listener, ItemsOf(Listener, w), TALKERS, TALKERS + LISTENERS, 0);
    assert MessageBytes(TalkerAdv, w, false) == 1910;
    assert MessageBytes(TalkerFailed, w, false) == 0;
    assert MessageBytes(Listener, w, false) == 66;
    assert BytesBefore(0, w, false) == 0;
  }

  /**
    The room does not always suffice: after 74 client commands the transmit opportunity calls
    the domain emitter with 9 bytes left, of which a domain's first value alone needs 10.
   */
  lemma AlmostFullFrame(p2p: bool)
    ensures PossibleRun(Commands(ALL))
    ensures var w := WalkedAll(p2p, After(p2p, false, Commands(ALL)).attribs, Tx, None);
            && Stage(3, w, false).Built? && Stage(3, w, false).used == 1976
            && Reach(Domain, ItemsOf(Domain, w), ROOM - 1976, false, false) > ROOM - 1976
            && !StaysInside(w, false)
  {
    hide Stage, Reach, FullSize, ItemsOf, List, Commands, WalkedAll, FirstLead, Alone, BytesBefore, AllSent;
    CommandsPossible(ALL);
    AfterCommands(p2p, ALL);
    var w := Sending(p2p);
    SendingIs(p2p);
    SendingBytes(p2p);
    SendingEncodable(p2p);
    StartsEmpty(w);
    StageComplete(3, w, false);
    DomainLead(p2p);
    ReachIff(Domain, ItemsOf(Domain, w), ROOM - 1976, false, false);
    DomainKeyed(w);
    assert !CallStays(3, w, false);
  }

  lemma SendingIs(p2p: bool)
    ensures Sending(p2p) == WalkedAll(p2p, List(p2p, ALL), Tx, None)
  {
  }

  lemma StartsEmpty(w: seq<Attrib>)
    ensures BytesBefore(0, w, false) == 0
  {
  }

  lemma DomainKeyed(w: seq<Attrib>)
    ensures |ItemsOf(Domain, w)| == |w| && Order[3] == Domain
  {
  }
}
