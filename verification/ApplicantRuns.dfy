/**
  The two-announcement rule in the comment at the top of mrp.h, over every run of one
  attribute's Applicant machine, starting from VO.
 */
module ApplicantRuns {
  import opened Mrp

  /** One event as the Applicant sees it, with the state of the attribute's Registrar. */
  datatype Tick = Tick(event: Event, registrarIn: bool)

  function StateAfter(p2p: bool, run: seq<Tick>): ApplicantState {
    if run == [] then VO
    else
      var t := run[|run| - 1];
      NextApplicant(p2p, StateAfter(p2p, run[..|run| - 1]), t.event, t.registrarIn)
  }

  predicate ForgetsAnnouncements(e: Event) {
    e in {RLv, RLa, Redeclare, Begin}
  }

  /** A New or Join that must be sent, a JoinIn heard, or an In heard on a point-to-point link. */
  predicate Announces(p2p: bool, s: ApplicantState, e: Event) {
    || e == RJoinIn
    || (e == RIn && p2p)
    || Announcement(s, e) in {Some((SndNew, false)), Some((SndJoin, false))}
  }

  function CountStep(p2p: bool, s: ApplicantState, count: nat, e: Event): nat {
    if ForgetsAnnouncements(e) then 0 else if Announces(p2p, s, e) then count + 1 else count
  }

  /** Announcements of the attribute since the last Leave or LeaveAll was received. */
  function Announcements(p2p: bool, run: seq<Tick>): nat {
    if run == [] then 0
    else
      var before := run[..|run| - 1];
      CountStep(p2p, StateAfter(p2p, before), Announcements(p2p, before), run[|run| - 1].event)
  }

  /** What mrp.h promises: two announcements before going quiet, one before being merely anxious. */
  function Owed(s: ApplicantState): nat {
    if s in {QA, QO, QP} then 2 else if s in {AN, AA, AO, AP} then 1 else 0
  }

  predicate Paid(p2p: bool, run: seq<Tick>) {
    Announcements(p2p, run) >= Owed(StateAfter(p2p, run))
  }

  /** The two steps that advance an applicant nobody has announced yet. */
  predicate Skips(s: ApplicantState, count: nat, e: Event) {
    count == 0 && ((e == TxLa && s == VP) || (e == Join && s == LA))
  }

  lemma PaidStep(p2p: bool, s: ApplicantState, count: nat, t: Tick)
    requires count >= Owed(s)
    ensures CountStep(p2p, s, count, t.event) >= Owed(NextApplicant(p2p, s, t.event, t.registrarIn))
       <==> !Skips(s, count, t.event)
  {
  }

  predicate SkipsAt(p2p: bool, run: seq<Tick>, k: nat)
    requires k < |run|
  {
    Skips(StateAfter(p2p, run[..k]), Announcements(p2p, run[..k]), run[k].event)
  }

  predicate PaidAt(p2p: bool, run: seq<Tick>, k: nat)
    requires k <= |run|
  {
    Paid(p2p, run[..k])
  }

  lemma PaidExtends(p2p: bool, run: seq<Tick>, k: nat)
    requires k < |run| && PaidAt(p2p, run, k)
    ensures PaidAt(p2p, run, k + 1) <==> !SkipsAt(p2p, run, k)
  {
    assert run[..k + 1][..k] == run[..k];
    PaidStep(p2p, StateAfter(p2p, run[..k]), Announcements(p2p, run[..k]), run[k]);
  }

  lemma {:induction false} PaidUpTo(p2p: bool, run: seq<Tick>, n: nat)
    requires n <= |run|
    requires forall k: nat | k < |run| :: !SkipsAt(p2p, run, k)
    ensures PaidAt(p2p, run, n)
  {
    if n > 0 {
      PaidUpTo(p2p, run, n - 1);
      PaidExtends(p2p, run, n - 1);
    }
  }

  /**
    The two-announcement rule holds at every point of a run exactly when the run never sends
    a LeaveAll while the unannounced applicant is in VP and never joins while it is in LA.
   */
  lemma {:induction false} TwoAnnouncementsBeforeQuiet(p2p: bool, run: seq<Tick>)
    ensures (forall k: nat | k <= |run| :: PaidAt(p2p, run, k))
       <==> (forall k: nat | k < |run| :: !SkipsAt(p2p, run, k))
  {
    if forall k: nat | k < |run| :: !SkipsAt(p2p, run, k) {
      forall k: nat | k <= |run| ensures PaidAt(p2p, run, k) {
        PaidUpTo(p2p, run, k);
      }
    } else {
      var k: nat :| k < |run| && SkipsAt(p2p, run, k);
      if PaidAt(p2p, run, k) {
        PaidExtends(p2p, run, k);
      }
    }
  }

  /** The rule does fail: a LeaveAll sent after a Join, or a Join after New and Lv, reaches AA unannounced. */
  lemma UnannouncedApplicants(p2p: bool)
    ensures !Paid(p2p, [Tick(Join, false), Tick(TxLa, false)])
    ensures !Paid(p2p, [Tick(New, false), Tick(Lv, false), Tick(Join, false)])
  {
    var join, leaveAll := [Tick(Join, false)], [Tick(Join, false), Tick(TxLa, false)];
    assert leaveAll[..1] == join && join[..0] == [];
    assert StateAfter(p2p, join) == VP && Announcements(p2p, join) == 0;
    assert StateAfter(p2p, leaveAll) == AA && Announcements(p2p, leaveAll) == 0;
    var new1, gone := [Tick(New, false)], [Tick(New, false), Tick(Lv, false)];
    var back := [Tick(New, false), Tick(Lv, false), Tick(Join, false)];
    assert back[..2] == gone && gone[..1] == new1 && new1[..0] == [];
    assert StateAfter(p2p, new1) == VN && Announcements(p2p, new1) == 0;
    assert StateAfter(p2p, gone) == LA && Announcements(p2p, gone) == 0;
    assert StateAfter(p2p, back) == AA && Announcements(p2p, back) == 0;
  }
}
