/**
  The MSRP participant of daemons/mrpd/msrp.c: talker, listener and domain attributes in one
  list, merged when an attribute with the same key arrives, and optional pruning of talkers
  nobody is interested in.
 */
module Msrp {
  import opened Mrp
  import opened Mrpdu
  import AttribList

  type u16 = x: int | 0 <= x < 0x1_0000
  type u32 = x: int | 0 <= x < 0x1_0000_0000
  type id8 = s: seq<byte> | |s| == 8 witness [0, 0, 0, 0, 0, 0, 0, 0]
  type id6 = s: seq<byte> | |s| == 6 witness [0, 0, 0, 0, 0, 0]

  /** msrpdu_talker_fail: a Talker Advertise has all failure information zero. */
  datatype Talker = Talker(
    streamId: id8, dest: id6, vlan: u16, maxFrame: u16, maxInterval: u16,
    priority: byte, latency: u32, bridge: id8, code: byte)

  datatype SrDomain = SrDomain(classId: byte, priority: byte, neighbor: byte, vlan: u16)

  /** `talker` is meaningful for talkers and listeners, `domain` for domains. */
  datatype Attrib = Attrib(
    kind: Kind, talker: Talker, domain: SrDomain, sub: substate, declare: bool,
    app: Applicant, reg: Registrar)

  datatype Key = TalkerKey(id: id8) | ListenerKey(id: id8) | DomainKey(srClass: byte)

  predicate IsTalker(kind: Kind) { kind in {TalkerAdv, TalkerFailed} }

  predicate MsrpKind(kind: Kind) { kind != Vid }

  /** What msrp_lookup compares: the two talker types are one, a domain is its class. */
  function KeyOf(a: Attrib): Key {
    if IsTalker(a.kind) then TalkerKey(a.talker.streamId)
    else if a.kind == Listener then ListenerKey(a.talker.streamId)
    else DomainKey(a.domain.classId)
  }

  /** The stream IDs a client asked for, and whether others are pruned. */
  datatype Db = Db(
    attribs: seq<Attrib>, join: bool, lv: bool, lva: bool, machine: LvaMachine,
    interesting: set<id8>, pruning: bool)

  // ---------------------------------------------------------------- Lookup and add

  function Find(s: seq<Attrib>, key: Key): (k: nat)
    ensures k <= |s|
    ensures k < |s| ==> KeyOf(s[k]) == key
    ensures forall i :: 0 <= i < k ==> KeyOf(s[i]) != key
  {
    if s == [] || KeyOf(s[0]) == key then 0 else 1 + Find(s[1..], key)
  }

  predicate Has(s: seq<Attrib>, key: Key) {
    Find(s, key) < |s|
  }

  function DomainBytes(d: SrDomain): seq<byte> {
    [d.classId, d.priority, d.neighbor, 0, d.vlan % 256, d.vlan / 256]
  }

  /** The order msrp_add keeps among attributes of one type. */
  predicate Precedes(a: Attrib, r: Attrib) {
    if a.kind == Domain then AttribList.MemCmp(DomainBytes(a.domain), DomainBytes(r.domain)) < 0
    else AttribList.MemCmp(a.talker.streamId, r.talker.streamId) < 0
  }

  /** msrp_add: next to the attributes of the same type, or at the end of the list. */
  function AddPos(s: seq<Attrib>, r: Attrib, i: nat): (p: nat)
    requires i <= |s|
    ensures i <= p <= |s|
    decreases |s| - i
  {
    if i == |s| then i
    else if s[i].kind != r.kind then AddPos(s, r, i + 1)
    else if !Precedes(s[i], r) then i
    else if i + 1 < |s| && s[i + 1].kind == r.kind then AddPos(s, r, i + 1)
    else i + 1
  }

  function Added(s: seq<Attrib>, r: Attrib): (t: seq<Attrib>)
    ensures |t| == |s| + 1 && t[AddPos(s, r, 0)] == r
  {
    var p := AddPos(s, r, 0);
    s[..p] + [r] + s[p..]
  }

  function Dropped(s: seq<Attrib>, k: nat): (t: seq<Attrib>)
    requires k < |s|
    ensures |t| == |s| - 1
  {
    s[..k] + s[k + 1..]
  }

  // ---------------------------------------------------------------- Merge

  const LISTENER_ASKFAILED := 1

  /** msrp_merge: the attribute in the list takes over what the arriving one says. */
  function Merged(s: seq<Attrib>, a: Attrib, r: Attrib): (m: Attrib)
    requires KeyOf(a) == KeyOf(r)
    ensures KeyOf(m) == KeyOf(a) && m.app == a.app
    ensures m.reg.state in {a.reg.state, MT}
  {
    var b := a.(reg := a.reg.(mac := r.reg.mac));
    var forced := b.(reg := b.reg.(state := MT));
    if IsTalker(a.kind) then
      if r.declare != a.declare then b
      else
        var t := b.talker.(code := r.talker.code, bridge := r.talker.bridge);
        if a.kind != r.kind then forced.(talker := t, kind := r.kind) else b.(talker := t)
    else if a.kind == Listener then
      if a.sub == r.sub then b
      else if a.sub == LISTENER_ASKFAILED && !Has(s, TalkerKey(a.talker.streamId)) then b
      else if r.declare == a.declare then forced.(sub := r.sub)
      else forced
    else if a.domain.priority != r.domain.priority || a.domain.vlan != r.domain.vlan then
      forced.(domain := a.domain.(neighbor := r.domain.priority, vlan := r.domain.vlan))
    else b
  }

  // ---------------------------------------------------------------- Events

  function Applied(p2p: bool, a: Attrib, e: Event): Attrib {
    a.(app := ApplicantFsm(p2p, a.app, e, a.reg.state == IN))
  }

  function Registered(a: Attrib, e: Event): Attrib {
    a.(reg := RegistrarFsm(a.reg, e))
  }

  function RegistrarEvent(e: Event, r: RegistrarState): Event {
    match e
    case New => Begin
    case Join => if r == IN then RJoinIn else RJoinMt
    case Lv => RLv
    case _ => e
  }

  function Handled(p2p: bool, a: Attrib, e: Event): Attrib {
    var b := Registered(Applied(p2p, a, e), RegistrarEvent(e, a.reg.state));
    if e == New then b.(reg := b.reg.(notify := NotifyNew)) else b
  }

  predicate Reclaimable(a: Attrib) {
    a.reg.state == MT && a.app.state in {VO, AO, QO}
  }

  function Kept(s: seq<Attrib>): seq<Attrib> {
    if s == [] then [] else (if Reclaimable(s[0]) then [] else [s[0]]) + Kept(s[1..])
  }

  /** One attribute's part of a walk; a received LeaveAll concerns one type only. */
  function Walked(p2p: bool, a: Attrib, e: Event, kind: Option<Kind>): Attrib {
    if kind.Some? && a.kind != kind.value then a
    else
      match e
      case TxLa | RLa => Registered(Applied(p2p, a, e), e)
      case LvTimer => Registered(a, e)
      case _ => Applied(p2p, a, e)
  }

  function WalkedAll(p2p: bool, s: seq<Attrib>, e: Event, kind: Option<Kind>): (r: seq<Attrib>)
    ensures |r| == |s|
  {
    seq<Attrib>(|s|, i requires 0 <= i < |s| => Walked(p2p, s[i], e, kind))
  }

  predicate AnyLeaves(s: seq<Attrib>, e: Event, kind: Option<Kind>) {
    exists i :: 0 <= i < |s| && (kind.Some? ==> s[i].kind == kind.value) && StartsLeaveTimer(s[i].reg, e)
  }

  predicate AnotherTxNeeded(s: seq<Attrib>) {
    exists i :: 0 <= i < |s| && TransitionImpliesTx(s[i].app)
  }

  function Calmed(a: Attrib): Attrib {
    a.(reg := a.reg.(notify := NotifyNone))
  }

  function CalmedAll(s: seq<Attrib>): (r: seq<Attrib>)
    ensures |r| == |s|
  {
    seq<Attrib>(|s|, i requires 0 <= i < |s| => Calmed(s[i]))
  }

  function Settled(a: Attrib): Attrib {
    a.(app := a.app.(tx := false))
  }

  function SettledAll(s: seq<Attrib>): (r: seq<Attrib>)
    ensures |r| == |s|
  {
    seq<Attrib>(|s|, i requires 0 <= i < |s| => Settled(s[i]))
  }

  function Calm(db: Db): Db {
    db.(attribs := CalmedAll(db.attribs))
  }

  predicate ValueEvent(e: Event) {
    e in {New, Join, Lv, RNew, RJoinIn, RJoinMt, RIn, RMt, RLv}
  }

  /** With pruning on, a talker counts only if its stream is listed or a listener wants it. */
  predicate Interested(db: Db, r: Attrib) {
    !IsTalker(r.kind) || !db.pruning
    || r.talker.streamId in db.interesting || Has(db.attribs, ListenerKey(r.talker.streamId))
  }

  /** The list with the attribute that an event for `r` acts on, and that attribute's index. */
  function WithTarget(s: seq<Attrib>, r: Attrib): (t: (seq<Attrib>, nat))
    ensures t.1 < |t.0| && KeyOf(t.0[t.1]) == KeyOf(r)
  {
    var k := Find(s, KeyOf(r));
    if k < |s| then (s[k := Merged(s, s[k], r)], k) else (Added(s, r), AddPos(s, r, 0))
  }

  function Touched(p2p: bool, list: seq<Attrib>, k: nat, e: Event): seq<Attrib>
    requires k < |list|
  {
    var b := Handled(p2p, list[k], e);
    if Reclaimable(b) then Dropped(list, k) else list[k := b]
  }

  function ApplyStep(p2p: bool, db: Db, e: Event, r: Attrib): Db {
    if !Interested(db, r) then Calm(db)
    else if e == RMt && !Has(db.attribs, KeyOf(r)) then db.(join := true)
    else
      var (list, k) := WithTarget(db.attribs, r);
      Calm(db.(attribs := Touched(p2p, list, k, e), join := true,
               lv := db.lv || StartsLeaveTimer(list[k].reg, RegistrarEvent(e, list[k].reg.state))))
  }

  function WithoutTalkers(s: seq<Attrib>, id: id8): seq<Attrib> {
    if s == [] then []
    else (if KeyOf(s[0]) == TalkerKey(id) then [] else [s[0]]) + WithoutTalkers(s[1..], id)
  }

  /**
    Apply is an event for one attribute `r`; LeaveAllHeard a received LeaveAll for one type;
    Interest, Uninterest and UninterestAll are the commands I+S, I-S and I-A; Withdraw is S-L.
   */
  datatype Input =
    | Apply(e: Event, r: Attrib)
    | LeaveAllHeard(kind: Kind)
    | TxTick | LvTick | LvaTick | PeriodicTick | Reclaim
    | Interest(id: id8, full: bool)
    | Uninterest(id: id8)
    | UninterestAll
    | Withdraw(id: id8, mac: seq<int>)

  const NoTalker := Talker([0, 0, 0, 0, 0, 0, 0, 0], [0, 0, 0, 0, 0, 0], 0, 0, 0, 0, 0, [0, 0, 0, 0, 0, 0, 0, 0], 0)
  const NoDomain := SrDomain(0, 0, 0, 0)

  /** msrp_alloc with a type and, for streams, an ID. */
  function Fresh(kind: Kind, id: id8, mac: seq<int>): Attrib {
    Attrib(kind, NoTalker.(streamId := id), NoDomain, 0, false, FreshApplicant, Registrar(MT, NotifyNone, mac))
  }

  /** A Talker Advertise carries no failure information. */
  predicate Clean(a: Attrib) {
    a.kind == TalkerAdv ==> a.talker.bridge == NoTalker.bridge && a.talker.code == 0
  }

  /** What msrp_alloc and its callers hand to msrp_event. */
  predicate Arriving(r: Attrib) {
    MsrpKind(r.kind) && Clean(r) && r.app == FreshApplicant && r.reg.state == MT && r.reg.notify == NotifyNone
  }

  predicate Possible(input: Input) {
    match input
    case Apply(e, r) => ValueEvent(e) && Arriving(r)
    case LeaveAllHeard(kind) => MsrpKind(kind)
    case _ => true
  }

  /** msrp_cmd_withdraw_listener_status: the Lv keeps the substate the list has. */
  function WithdrawnListener(s: seq<Attrib>, id: id8, mac: seq<int>): Attrib {
    var k := Find(s, ListenerKey(id));
    Fresh(Listener, id, mac).(sub := if k < |s| then s[k].sub else 0)
  }

  function Step(p2p: bool, db: Db, input: Input): Db {
    match input
    case Apply(e, r) => ApplyStep(p2p, db, e, r)
    case LeaveAllHeard(kind) =>
      Calm(db.(attribs := WalkedAll(p2p, db.attribs, RLa, Some(kind)), join := true,
               lv := db.lv || AnyLeaves(db.attribs, RLa, Some(kind)), lva := true, machine := LvaFsm(db.machine, RLa)))
    case TxTick =>
      var w := WalkedAll(p2p, db.attribs, Tx, None);
      Calm(db.(attribs := SettledAll(w), join := AnotherTxNeeded(w), machine := db.machine.(tx := false)))
    case LvTick => Calm(db.(attribs := Kept(WalkedAll(p2p, db.attribs, LvTimer, None)), lv := false))
    case LvaTick =>
      Calm(db.(attribs := SettledAll(WalkedAll(p2p, db.attribs, TxLa, None)), join := false,
               lv := db.lv || AnyLeaves(db.attribs, TxLa, None), lva := true,
               machine := LvaFsm(LvaFsm(db.machine, LvaTimer), Tx).(tx := false)))
    case PeriodicTick => Calm(db)
    case Reclaim => db.(attribs := Kept(db.attribs))
    case Interest(id, full) =>
      if !db.pruning || id in db.interesting || full then db else db.(interesting := db.interesting + {id})
    case Uninterest(id) =>
      if !db.pruning || id !in db.interesting then db
      else
        var rest := db.(interesting := db.interesting - {id});
        if Has(db.attribs, ListenerKey(id)) then rest else rest.(attribs := WithoutTalkers(db.attribs, id))
    case UninterestAll => db.(interesting := {})
    case Withdraw(id, mac) =>
      var left := ApplyStep(p2p, db, Lv, WithdrawnListener(db.attribs, id, mac));
      if left.pruning && id !in left.interesting then left.(attribs := WithoutTalkers(left.attribs, id)) else left
  }

  function InitialDb(pruning: bool): Db {
    Db([], false, false, true, LvaMachine(false, false, SndNone), {}, pruning)
  }

  function After(p2p: bool, pruning: bool, run: seq<Input>): Db {
    if run == [] then InitialDb(pruning)
    else Step(p2p, After(p2p, pruning, run[..|run| - 1]), run[|run| - 1])
  }

  ghost predicate PossibleRun(run: seq<Input>) {
    forall i :: 0 <= i < |run| ==> Possible(run[i])
  }
}
