/**
  What holds at every point of every run of the MVRP participant, from mvrp_init on. Each
  promise is compared with a definition over the history of inputs alone.
 */
module MvrpRuns {
  import opened Mrp
  import opened Mvrp
  import opened MvrpPerVid

  // ---------------------------------------------------------------- Runs, one VID at a time

  function VidAfter(p2p: bool, run: seq<Input>, v: vid): Option<Attrib> {
    if run == [] then None
    else VidStep(p2p, VidAfter(p2p, run[..|run| - 1], v), run[|run| - 1], v)
  }

  /** The last notification the clients have had about `v`. */
  function NoteAfter(p2p: bool, station: mac, run: seq<Input>, v: vid): Option<Notify> {
    if run == [] then None
    else
      var before := run[..|run| - 1];
      var last := LastNote(Step(p2p, station, After(p2p, station, before), run[|run| - 1]).notes, v);
      if last.Some? then last else NoteAfter(p2p, station, before, v)
  }

  /** The list stays strictly ascending and calm, and the LeaveAll machine passive, in every run. */
  lemma {:induction false} RunPerVid(p2p: bool, station: mac, run: seq<Input>, v: vid)
    requires PossibleRun(run)
    ensures Valid(After(p2p, station, run))
    ensures Lookup(After(p2p, station, run).attribs, v) == VidAfter(p2p, run, v)
  {
    hide Step, VidStep, Valid;
    if run == [] {
      StartsValid();
    } else {
      var before := run[..|run| - 1];
      RunPerVid(p2p, station, before, v);
      StepPerVid(p2p, station, After(p2p, station, before), run[|run| - 1], v);
    }
  }

  lemma StartsValid()
    ensures Valid(InitialDb)
  {
  }

  // ---------------------------------------------------------------- Declared VIDs

  predicate DeclaredState(s: ApplicantState) {
    s in {VP, VN, AN, AA, QA, AP, QP}
  }

  predicate IsDeclared(o: Option<Attrib>) {
    o.Some? && DeclaredState(o.value.app.state)
  }

  /** The VIDs whose last client command was New or Join. */
  function Declared(run: seq<Input>): set<vid> {
    if run == [] then {}
    else
      var before := Declared(run[..|run| - 1]);
      match run[|run| - 1]
      case Apply(New, v, _) => before + {v}
      case Apply(Join, v, _) => before + {v}
      case Apply(Lv, v, _) => before - {v}
      case _ => before
  }

  lemma DeclaredByApplicant(p2p: bool, s: ApplicantState, e: Event, registrarIn: bool)
    ensures DeclaredState(NextApplicant(p2p, s, e, registrarIn))
       <==> e == New || e == Join || (DeclaredState(s) && e != Lv && e != Begin)
  {
  }

  lemma DeclaredStep(p2p: bool, o: Option<Attrib>, input: Input, v: vid)
    requires Possible(input)
    ensures IsDeclared(VidStep(p2p, o, input, v))
       <==> (if input.Apply? && input.vid == v && input.e in {New, Join} then true
             else if input.Apply? && input.vid == v && input.e == Lv then false
             else IsDeclared(o))
  {
    hide Moved, Reclaimable;
    DeclaredMoved(p2p, o, input, v);
    ReclaimedUndeclared(p2p, o, input, v);
  }

  lemma DeclaredMoved(p2p: bool, o: Option<Attrib>, input: Input, v: vid)
    requires Possible(input)
    ensures IsDeclared(Moved(p2p, o, input, v))
       <==> (if input.Apply? && input.vid == v && input.e in {New, Join} then true
             else if input.Apply? && input.vid == v && input.e == Lv then false
             else IsDeclared(o))
  {
    hide NextApplicant, NextRegistrar, Announcement, Notification;
    var s := if o.Some? then o.value.app.state else VO;
    var registrarIn := o.Some? && o.value.reg.state == IN;
    var e := EventFor(input, v);
    DeclaredByApplicant(p2p, s, e, registrarIn);
  }

  /** The event an attribute's applicant sees for an input; Flush stands for none. */
  function EventFor(input: Input, v: vid): Event {
    match input
    case Apply(e, w, _) => if v == w then e else Flush
    case LeaveAllHeard => RLa
    case TxTick => Tx
    case LvaTick => TxLa
    case PeriodicTick => Periodic
    case LvTick => Flush
    case Reclaim => Flush
  }

  /**
    At every point of every run a VID is in the list with a declaring applicant exactly when
    its last client command was New or Join; nothing received, no timer and no reclaim matters.
   */
  lemma {:induction false} DeclaredExactly(p2p: bool, station: mac, run: seq<Input>, v: vid)
    requires PossibleRun(run)
    ensures IsDeclared(Lookup(After(p2p, station, run).attribs, v)) <==> v in Declared(run)
  {
    RunPerVid(p2p, station, run, v);
    DeclaredPerVid(p2p, run, v);
  }

  lemma {:induction false} DeclaredPerVid(p2p: bool, run: seq<Input>, v: vid)
    requires PossibleRun(run)
    ensures IsDeclared(VidAfter(p2p, run, v)) <==> v in Declared(run)
  {
    hide VidStep;
    if run != [] {
      var before := run[..|run| - 1];
      DeclaredPerVid(p2p, before, v);
      DeclaredStep(p2p, VidAfter(p2p, before, v), run[|run| - 1], v);
    }
  }

  // ---------------------------------------------------------------- What the clients believe

  /** The last event for `v` that moves a registrar was the client's own New. */
  predicate PendingNew(run: seq<Input>, v: vid) {
    if run == [] then false
    else
      var last := run[|run| - 1];
      if last.Apply? && last.vid == v && last.e !in {RIn, RMt} then last.e == New
      else PendingNew(run[..|run| - 1], v)
  }

  function RegistrarOf(o: Option<Attrib>): RegistrarState {
    if o.Some? then o.value.reg.state else MT
  }

  /** The clients' last news about a VID agrees with its registrar, except after their own New. */
  predicate Tracks(o: Option<Attrib>, note: Option<Notify>, pending: bool) {
    match RegistrarOf(o)
    case IN => note in {Some(NotifyNew), Some(NotifyJoin)} && !pending
    case LV => !pending
    case MT => if pending then note == Some(NotifyNew) && IsDeclared(o) else note in {None, Some(NotifyLv)}
  }

  function NextPending(pending: bool, input: Input, v: vid): bool {
    if input.Apply? && input.vid == v && input.e !in {RIn, RMt} then input.e == New else pending
  }

  lemma TracksStep(p2p: bool, o: Option<Attrib>, note: Option<Notify>, pending: bool, input: Input, v: vid)
    requires Possible(input) && Tracks(o, note, pending)
    requires o.Some? ==> o.value.reg.notify == NotifyNone
    ensures var heard := VidNote(p2p, o, input, v);
            Tracks(VidStep(p2p, o, input, v), if heard.Some? then heard else note, NextPending(pending, input, v))
  {
    hide VidStep, VidNote, Tracks, NextPending;
    if input.Apply? {
      TracksApply(p2p, o, note, pending, input, v);
    } else {
      TracksTick(p2p, o, note, pending, input, v);
    }
  }

  lemma TracksApply(p2p: bool, o: Option<Attrib>, note: Option<Notify>, pending: bool, input: Input, v: vid)
    requires input.Apply? && Possible(input) && Tracks(o, note, pending)
    requires o.Some? ==> o.value.reg.notify == NotifyNone
    ensures var heard := VidNote(p2p, o, input, v);
            Tracks(VidStep(p2p, o, input, v), if heard.Some? then heard else note, NextPending(pending, input, v))
  {
    hide NextApplicant, Announcement;
    DeclaredStep(p2p, o, input, v);
    ReclaimedUndeclared(p2p, o, input, v);
  }

  lemma TracksTick(p2p: bool, o: Option<Attrib>, note: Option<Notify>, pending: bool, input: Input, v: vid)
    requires !input.Apply? && Tracks(o, note, pending)
    requires o.Some? ==> o.value.reg.notify == NotifyNone
    ensures var heard := VidNote(p2p, o, input, v);
            Tracks(VidStep(p2p, o, input, v), if heard.Some? then heard else note, NextPending(pending, input, v))
  {
    hide NextApplicant, Announcement;
    DeclaredStep(p2p, o, input, v);
    ReclaimedUndeclared(p2p, o, input, v);
  }

  lemma ReclaimedUndeclared(p2p: bool, o: Option<Attrib>, input: Input, v: vid)
    ensures var m := Moved(p2p, o, input, v); m.Some? && Reclaimable(m.value) ==> !IsDeclared(m)
  {
    hide Moved;
  }

  lemma {:induction false} ClientViewPerRun(p2p: bool, station: mac, run: seq<Input>, v: vid)
    requires PossibleRun(run)
    ensures Tracks(VidAfter(p2p, run, v), NoteAfter(p2p, station, run, v), PendingNew(run, v))
  {
    hide VidStep, VidNote, Tracks, Step, Valid;
    if run == [] {
      NothingTracks();
    } else {
      var before, last := run[..|run| - 1], run[|run| - 1];
      ClientViewPerRun(p2p, station, before, v);
      RunPerVid(p2p, station, before, v);
      StepPerVid(p2p, station, After(p2p, station, before), last, v);
      ValidCalm(After(p2p, station, before), v);
      TracksStep(p2p, VidAfter(p2p, before, v), NoteAfter(p2p, station, before, v), PendingNew(before, v), last, v);
    }
  }

  lemma NothingTracks()
    ensures Tracks(None, None, false)
  {
  }

  lemma ValidCalm(db: Db, v: vid)
    requires Valid(db)
    ensures Lookup(db.attribs, v).Some? ==> Lookup(db.attribs, v).value.reg.notify == NotifyNone
  {
    LookupFound(db.attribs, v);
  }

  /**
    In every run: a registered VID was last reported New or Joined, and one that is not in the
    list or empty was last reported left, or never, exactly when no own New is pending for it.
    An own New is pending only while the registrar is empty.
   */
  lemma ClientViewTracksRegistration(p2p: bool, station: mac, run: seq<Input>, v: vid)
    requires PossibleRun(run)
    ensures var registrar := RegistrarOf(Lookup(After(p2p, station, run).attribs, v));
            var note := NoteAfter(p2p, station, run, v);
            && (registrar == IN ==> note in {Some(NotifyNew), Some(NotifyJoin)})
            && (registrar == MT ==> (note in {None, Some(NotifyLv)} <==> !PendingNew(run, v)))
            && (PendingNew(run, v) ==> registrar == MT)
  {
    hide Step, After, NoteAfter, PendingNew, Valid;
    RunPerVid(p2p, station, run, v);
    ClientViewPerRun(p2p, station, run, v);
  }

  /** The exception is real: after a first own New the clients have heard New of an empty registrar. */
  lemma OwnNewMisleads(p2p: bool, station: mac, v: vid, mac: seq<int>)
    ensures var run := [Apply(New, v, mac)];
            && RegistrarOf(Lookup(After(p2p, station, run).attribs, v)) == MT
            && NoteAfter(p2p, station, run, v) == Some(NotifyNew)
  {
    hide Step;
    var run := [Apply(New, v, mac)];
    assert run[..0] == [] && PendingNew(run, v);
    RunPerVid(p2p, station, run, v);
    ClientViewPerRun(p2p, station, run, v);
    assert VidAfter(p2p, run, v) == VidStep(p2p, None, run[0], v);
  }
}
