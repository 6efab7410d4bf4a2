/**
  The MRP state machines of daemons/mrpd/mrp.c: the per-attribute Applicant (Table 10-3 of
  IEEE 802.1Q-2011), the per-attribute Registrar (Table 10-4) and the LeaveAll machine.

  An attribute's record is a value here; the database that owns the list replaces the
  record when a machine takes a step. `p2p` is operPointToPointMAC.
 */
module Mrp {

  datatype Option<+T> = None | Some(value: T)

  function SeqOf<T>(o: Option<T>): seq<T> {
    if o.Some? then [o.value] else []
  }

  datatype ApplicantState = VO | VP | VN | AN | AA | QA | LA | AO | QO | AP | QP | LO

  datatype RegistrarState = IN | LV | MT

  datatype Event =
    | Begin | New | Join | Lv | Tx | TxLa | TxLaf
    | RNew | RJoinIn | RIn | RJoinMt | RMt | RLv | RLa
    | Flush | Redeclare | Periodic | LvTimer | LvaTimer

  datatype SndMsg = SndNew | SndJoin | SndIn | SndLv | SndLva | SndNull | SndNone

  datatype Notify = NotifyNone | NotifyNew | NotifyJoin | NotifyLv

  /** `previous` is None until the first event, where the source stores -1. */
  datatype Applicant = Applicant(
    state: ApplicantState,
    tx: bool,
    snd: SndMsg,
    optional: bool,
    previous: Option<ApplicantState>)

  datatype Registrar = Registrar(state: RegistrarState, notify: Notify, mac: seq<int>)

  datatype LvaMachine = LvaMachine(active: bool, tx: bool, snd: SndMsg)

  const FreshApplicant := Applicant(VO, false, SndNull, true, None)

  // ---------------------------------------------------------------- Applicant

  predicate ApplicantAccepts(e: Event) {
    !e.Flush? && !e.LvTimer? && !e.LvaTimer?
  }

  function NextApplicant(p2p: bool, s: ApplicantState, e: Event, registrarIn: bool): ApplicantState {
    match e
    case Begin => VO
    case New => if s in {VN, AN} then s else VN
    case Join =>
      (match s
       case LO | VO => VP
       case LA => AA
       case AO => AP
       case QO => QP
       case _ => s)
    case Lv =>
      (match s
       case VN | AN | AA | QA => LA
       case VP => VO
       case AP => AO
       case QP => QO
       case _ => s)
    case TxLa =>
      (match s
       case VP => AA
       case VN => AN
       case AN | QP | AP | AA | QA => QA
       case VO | LA | AO | QO | LO => LO)
    case TxLaf =>
      (match s
       case VO | QO | AO | LA => LO
       case AN => VN
       case QP | AP | AA | QA => VP
       case LO | VP | VN => s)
    case Tx =>
      (match s
       case VP => AA
       case VN => AN
       case AN => if registrarIn then QA else AA
       case AP | AA => QA
       case LA | LO => VO
       case VO | QA | AO | QO | QP => s)
    case RJoinIn =>
      (match s
       case VO => if p2p then VO else AO
       case VP => if p2p then VP else AP
       case AA => QA
       case AO => QO
       case AP => QP
       case _ => s)
    case RIn => if s == AA && p2p then QA else s
    case RJoinMt | RMt =>
      (match s
       case QA => AA
       case QO => AO
       case QP => AP
       case LO => VO
       case _ => s)
    case RLv | RLa | Redeclare =>
      (match s
       case VO | AO | QO => LO
       case AN => VN
       case QA | AA | AP | QP => VP
       case _ => s)
    case Periodic =>
      (match s
       case QA => AA
       case QP => AP
       case _ => s)
    case RNew | Flush | LvTimer | LvaTimer => s
  }

  /** What a Tx or TxLa event asks the encoder to send: the message, and whether it is optional. */
  function Announcement(s: ApplicantState, e: Event): Option<(SndMsg, bool)> {
    match e
    case TxLa =>
      (match s
       case VP => Some((SndIn, false))
       case VN | AN => Some((SndNew, false))
       case QP | AP | AA | QA => Some((SndJoin, false))
       case VO | LA | AO | QO | LO => Some((SndIn, true)))
    case Tx =>
      (match s
       case VN | AN => Some((SndNew, false))
       case VP | AP | AA => Some((SndJoin, false))
       case QA => Some((SndJoin, true))
       case LA => Some((SndLv, false))
       case LO => Some((SndIn, false))
       case VO | AO | QO | QP => Some((SndIn, true)))
    case _ => None
  }

  function ApplicantFsm(p2p: bool, a: Applicant, e: Event, registrarIn: bool): Applicant {
    if !ApplicantAccepts(e) then a
    else
      var next := NextApplicant(p2p, a.state, e, registrarIn);
      match Announcement(a.state, e)
      case None => Applicant(next, false, SndNull, false, Some(a.state))
      case Some((snd, optional)) => Applicant(next, true, snd, optional, Some(a.state))
  }

  predicate TransitionImpliesTx(a: Applicant) {
    a.previous != Some(a.state) && a.state in {VP, VN, AN, AA, LA}
  }

  // ---------------------------------------------------------------- Registrar

  predicate RegistrarAccepts(e: Event) {
    e in {Begin, RLv, TxLa, RLa, Redeclare, RNew, RJoinIn, RJoinMt, LvTimer, Flush, RMt, RIn}
  }

  function NextRegistrar(s: RegistrarState, e: Event): RegistrarState {
    match e
    case Begin | Flush => MT
    case RLv | TxLa | RLa | Redeclare => if s == IN then LV else s
    case RNew | RJoinIn | RJoinMt => IN
    case LvTimer => if s == LV then MT else s
    case _ => s
  }

  function Notification(s: RegistrarState, e: Event): Notify {
    match e
    case RLv | Flush => NotifyLv
    case RNew => NotifyNew
    case RJoinIn | RJoinMt => if s == IN then NotifyNone else NotifyJoin
    case LvTimer => if s == LV then NotifyLv else NotifyNone
    case _ => NotifyNone
  }

  function RegistrarFsm(r: Registrar, e: Event): Registrar {
    if !RegistrarAccepts(e) then r
    else r.(state := NextRegistrar(r.state, e), notify := Notification(r.state, e))
  }

  /** The Registrar starts the shared leave timer exactly when it moves from IN to LV. */
  predicate StartsLeaveTimer(r: Registrar, e: Event) {
    r.state == IN && e in {RLv, TxLa, RLa, Redeclare}
  }

  // ---------------------------------------------------------------- LeaveAll machine

  function LvaFsm(m: LvaMachine, e: Event): LvaMachine {
    match e
    case Begin | RLa => LvaMachine(false, false, SndNone)
    case LvaTimer => LvaMachine(true, false, SndNone)
    case Tx => if m.active then LvaMachine(false, true, SndLva) else LvaMachine(m.active, false, SndNone)
    case _ => m
  }
}
