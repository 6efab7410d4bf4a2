/**
  The MVRP participant of daemons/mrpd/mvrp.c: a list of VLAN attributes sorted by VID, three
  shared timers, and what one event does to them, to the clients and to the wire.
 */
module Mvrp {
  import opened Mrp
  import opened Mrpdu
  import opened Emission

  type vid = x: int | 0 <= x < 65536

  datatype Attrib = Attrib(vid: vid, app: Applicant, reg: Registrar)

  /** The timers are running or not; `machine` is the LeaveAll state machine. */
  datatype Db = Db(attribs: seq<Attrib>, join: bool, lv: bool, lva: bool, machine: LvaMachine)

  datatype Note = Note(vid: vid, notify: Notify)

  /**
    What mvrp_event and mvrp_reclaim can be asked to do. Apply is an event for one VID: New,
    Join and Lv are client commands, the R events come from received vectors.
   */
  datatype Input =
    | Apply(e: Event, vid: vid, mac: seq<int>)
    | LeaveAllHeard
    | TxTick
    | LvTick
    | LvaTick
    | PeriodicTick
    | Reclaim

  predicate ValueEvent(e: Event) {
    e in {New, Join, Lv, RNew, RJoinIn, RJoinMt, RIn, RMt, RLv}
  }

  predicate Possible(input: Input) {
    input.Apply? ==> ValueEvent(input.e)
  }

  /** New state, notifications sent to the clients in order, and the frame sent if any. */
  datatype Outcome = Outcome(db: Db, notes: seq<Note>, frame: Option<seq<byte>>)

  // ---------------------------------------------------------------- The sorted list

  ghost predicate Sorted(s: seq<Attrib>) {
    forall i, j :: 0 <= i < j < |s| ==> s[i].vid < s[j].vid
  }

  function Lookup(s: seq<Attrib>, v: vid): Option<Attrib> {
    if s == [] then None else if s[0].vid == v then Some(s[0]) else Lookup(s[1..], v)
  }

  function Insert(s: seq<Attrib>, a: Attrib): seq<Attrib> {
    if s == [] || s[0].vid >= a.vid then [a] + s else [s[0]] + Insert(s[1..], a)
  }

  function Update(s: seq<Attrib>, a: Attrib): seq<Attrib> {
    if s == [] then []
    else if s[0].vid == a.vid then [a] + s[1..]
    else [s[0]] + Update(s[1..], a)
  }

  function Remove(s: seq<Attrib>, v: vid): seq<Attrib> {
    if s == [] then []
    else if s[0].vid == v then s[1..]
    else [s[0]] + Remove(s[1..], v)
  }

  function FreshAttrib(v: vid, mac: seq<int>): Attrib {
    Attrib(v, FreshApplicant, Registrar(MT, NotifyNone, mac))
  }

  // ---------------------------------------------------------------- Reclaiming

  predicate Reclaimable(a: Attrib) {
    a.reg.state == MT && a.app.state in {VO, AO, QO}
  }

  function Kept(s: seq<Attrib>): seq<Attrib> {
    if s == [] then [] else (if Reclaimable(s[0]) then [] else [s[0]]) + Kept(s[1..])
  }

  function ReclaimNotes(s: seq<Attrib>): seq<Note> {
    if s == [] then [] else (if Reclaimable(s[0]) then [Note(s[0].vid, NotifyLv)] else []) + ReclaimNotes(s[1..])
  }

  // ---------------------------------------------------------------- Notifications

  function NotesOf(s: seq<Attrib>): seq<Note> {
    if s == [] then []
    else (if s[0].reg.notify != NotifyNone then [Note(s[0].vid, s[0].reg.notify)] else []) + NotesOf(s[1..])
  }

  function Calmed(a: Attrib): Attrib {
    a.(reg := a.reg.(notify := NotifyNone))
  }

  function CalmedAll(s: seq<Attrib>): (r: seq<Attrib>)
    ensures |r| == |s|
  {
    seq<Attrib>(|s|, i requires 0 <= i < |s| => Calmed(s[i]))
  }

  // ---------------------------------------------------------------- Walks

  function Applied(p2p: bool, a: Attrib, e: Event): Attrib {
    a.(app := ApplicantFsm(p2p, a.app, e, a.reg.state == IN))
  }

  function Registered(a: Attrib, e: Event): Attrib {
    a.(reg := RegistrarFsm(a.reg, e))
  }

  /** One attribute's part of a walk over the list, per kind of walk. */
  function Walked(p2p: bool, a: Attrib, e: Event): Attrib {
    match e
    case TxLa | RLa => Registered(Applied(p2p, a, e), e)
    case LvTimer => Registered(a, e)
    case _ => Applied(p2p, a, e)
  }

  function WalkedAll(p2p: bool, s: seq<Attrib>, e: Event): (r: seq<Attrib>)
    ensures |r| == |s|
  {
    seq<Attrib>(|s|, i requires 0 <= i < |s| => Walked(p2p, s[i], e))
  }

  predicate AnyLeaves(s: seq<Attrib>, e: Event) {
    exists i :: 0 <= i < |s| && StartsLeaveTimer(s[i].reg, e)
  }

  predicate AnotherTxNeeded(s: seq<Attrib>) {
    exists i :: 0 <= i < |s| && TransitionImpliesTx(s[i].app)
  }

  // ---------------------------------------------------------------- Transmission

  /** The event the encoder sends for an applicant message, given the registrar's state. */
  function EventCode(snd: SndMsg, registrar: RegistrarState): Option<event> {
    match snd
    case SndIn => Some(if registrar == IN then EV_IN else EV_MT)
    case SndNew => Some(EV_NEW)
    case SndLv => Some(EV_LV)
    case SndJoin => Some(if registrar == IN then EV_JOININ else EV_JOINMT)
    case _ => None
  }

  function ItemOf(a: Attrib): Item {
    Item(true, VidBytes(a.vid), a.app.tx, a.app.optional, EventCode(a.app.snd, a.reg.state), 0)
  }

  function ItemsOf(s: seq<Attrib>): (r: seq<Item>)
    ensures |r| == |s| && Keyed(Vid, r)
  {
    seq<Item>(|s|, i requires 0 <= i < |s| => ItemOf(s[i]))
  }

  const ETHERNET := 14

  /** Room for messages: the frame without Ethernet header and ProtocolVersion. */
  const ROOM := MAX_FRAME_SIZE - ETHERNET - 1

  const MVRP_ADDR: seq<byte> := [0x01, 0x80, 0xC2, 0x00, 0x00, 0x21]

  const MVRP_ETYPE: seq<byte> := [0x88, 0xF5]

  type mac = s: seq<byte> | |s| == 6 witness [0, 0, 0, 0, 0, 0]

  function FrameOf(station: mac, message: seq<byte>): seq<byte> {
    MVRP_ADDR + station + MVRP_ETYPE + [0] + message + ENDMARK
  }

  predicate CarriesMessage(em: Emitted) {
    && em.Emitted? && em.vectors != [] && AllWellFormed(Vid, em.vectors)
    && |EncodeVectors(Vid, em.vectors)| + 2 < 65536
    && |EncodeMessage(Vid, em.vectors)| + 2 < ROOM
  }

  /** mvrp_txpdu: nothing is sent when the emitter fails, has nothing, or leaves no end mark. */
  function TxPdu(station: mac, s: seq<Attrib>, lva: bool, sendEmpty: bool): Option<seq<byte>> {
    var em := EmitMessage(Vid, ItemsOf(s), ROOM, lva, sendEmpty);
    if CarriesMessage(em) then Some(FrameOf(station, EncodeMessage(Vid, em.vectors))) else None
  }

  /** Transmit flags mean nothing once the frame is out: the next walk sets them all again. */
  function Settled(a: Attrib): Attrib {
    a.(app := a.app.(tx := false))
  }

  function SettledAll(s: seq<Attrib>): (r: seq<Attrib>)
    ensures |r| == |s|
  {
    seq<Attrib>(|s|, i requires 0 <= i < |s| => Settled(s[i]))
  }

  // ---------------------------------------------------------------- Events

  /** Local requests reach the registrar as remapped events. */
  function RegistrarEvent(e: Event, r: RegistrarState): Event {
    match e
    case New => Begin
    case Join => if r == IN then RJoinIn else RJoinMt
    case Lv => RLv
    case _ => e
  }

  function Handled(p2p: bool, a: Attrib, e: Event): Attrib {
    var b := Registered(Applied(p2p, a, e), RegistrarEvent(e, a.reg.state));
    if e == New then b.(reg := b.reg.(notify := NotifyNew)) else b
  }

  function Merged(a: Attrib, mac: seq<int>): Attrib {
    a.(reg := a.reg.(mac := mac))
  }

  /** The attribute that an event for `v` acts on: the one in the list, or a new one. */
  function Target(s: seq<Attrib>, v: vid, mac: seq<int>): Attrib {
    match Lookup(s, v)
    case Some(a) => Merged(a, mac)
    case None => FreshAttrib(v, mac)
  }

  /** The list once it is sure to hold the target. */
  function WithTarget(s: seq<Attrib>, v: vid, mac: seq<int>): seq<Attrib> {
    var a := Target(s, v, mac);
    if Lookup(s, v).Some? then Update(s, a) else Insert(s, a)
  }

  function Finish(db: Db, notes: seq<Note>, frame: Option<seq<byte>>): Outcome {
    Outcome(db.(attribs := CalmedAll(db.attribs)), notes + NotesOf(db.attribs), frame)
  }

  function ApplyStep(p2p: bool, db: Db, e: Event, v: vid, mac: seq<int>): Outcome {
    var started := db.(join := true);
    if e == RMt && Lookup(db.attribs, v).None? then Outcome(started, [], None)
    else
      var a := Target(db.attribs, v, mac);
      var b := Handled(p2p, a, e);
      var list := WithTarget(db.attribs, v, mac);
      var lv := db.lv || StartsLeaveTimer(a.reg, RegistrarEvent(e, a.reg.state));
      if Reclaimable(b)
      then Finish(started.(attribs := Remove(list, v), lv := lv), [Note(v, NotifyLv)], None)
      else Finish(started.(attribs := Update(list, b), lv := lv), [], None)
  }

  function Step(p2p: bool, station: mac, db: Db, input: Input): Outcome {
    match input
    case Apply(e, v, mac) => ApplyStep(p2p, db, e, v, mac)
    case LeaveAllHeard =>
      Finish(Db(WalkedAll(p2p, db.attribs, RLa), true, db.lv || AnyLeaves(db.attribs, RLa), true, LvaFsm(db.machine, RLa)),
             [], None)
    case TxTick =>
      var walked := WalkedAll(p2p, db.attribs, Tx);
      Finish(db.(attribs := SettledAll(walked), join := AnotherTxNeeded(walked), machine := db.machine.(tx := false)),
             [], TxPdu(station, walked, db.machine.tx, false))
    case LvTick =>
      var walked := WalkedAll(p2p, db.attribs, LvTimer);
      Finish(db.(attribs := Kept(walked), lv := false), ReclaimNotes(walked), None)
    case LvaTick =>
      var walked := WalkedAll(p2p, db.attribs, TxLa);
      var machine := LvaFsm(LvaFsm(db.machine, LvaTimer), Tx);
      Finish(Db(SettledAll(walked), false, db.lv || AnyLeaves(db.attribs, TxLa), true, machine.(tx := false)),
             [], TxPdu(station, walked, machine.tx, true))
    case PeriodicTick =>
      Finish(db.(attribs := WalkedAll(p2p, db.attribs, Periodic), join := db.join || db.attribs != []), [], None)
    case Reclaim => Outcome(db.(attribs := Kept(db.attribs)), ReclaimNotes(db.attribs), None)
  }

  /** mvrp_init: an empty list, only the LeaveAll timer running. */
  const InitialDb := Db([], false, false, true, LvaMachine(false, false, SndNone))

  /** The database after a run of inputs. */
  function After(p2p: bool, station: mac, run: seq<Input>): Db {
    if run == [] then InitialDb
    else Step(p2p, station, After(p2p, station, run[..|run| - 1]), run[|run| - 1]).db
  }

  ghost predicate PossibleRun(run: seq<Input>) {
    forall i :: 0 <= i < |run| ==> Possible(run[i])
  }
}
