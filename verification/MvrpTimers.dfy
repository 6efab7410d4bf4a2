/**
  The shared timers over every run: the leave timer covers every leaving registrar, the join
  timer covers every applicant with something to send, and transmit opportunities end in quiet.
 */
module MvrpTimers {
  import opened Mrp
  import opened Mvrp
  import opened MvrpPerVid
  import opened MvrpRuns

  // ---------------------------------------------------------------- Leave timer

  ghost predicate SomeLeaving(s: seq<Attrib>) {
    exists i :: 0 <= i < |s| && s[i].reg.state == LV
  }

  /** A registrar leaving after an input was leaving before, or the input started the timer. */
  lemma LeavingStep(p2p: bool, station: mac, db: Db, input: Input, v: vid)
    requires Valid(db) && Possible(input)
    requires RegistrarOf(VidStep(p2p, Lookup(db.attribs, v), input, v)) == LV
    ensures Step(p2p, station, db, input).db.lv
            || (!input.LvTick? && RegistrarOf(Lookup(db.attribs, v)) == LV)
  {
    hide VidStep, Step, Lookup, Valid;
    if input.Apply? {
      LeavingApply(p2p, station, db, input, v);
    } else {
      LeavingTick(p2p, station, db, input, v);
    }
  }

  lemma LeavingApply(p2p: bool, station: mac, db: Db, input: Input, v: vid)
    requires input.Apply? && Possible(input)
    requires RegistrarOf(VidStep(p2p, Lookup(db.attribs, v), input, v)) == LV
    ensures Step(p2p, station, db, input).db.lv || RegistrarOf(Lookup(db.attribs, v)) == LV
  {
    hide NextApplicant, Announcement, NotesOf, CalmedAll, Lookup, Update, Remove, Insert;
  }

  lemma LeavingTick(p2p: bool, station: mac, db: Db, input: Input, v: vid)
    requires !input.Apply?
    requires RegistrarOf(VidStep(p2p, Lookup(db.attribs, v), input, v)) == LV
    ensures Step(p2p, station, db, input).db.lv || (!input.LvTick? && RegistrarOf(Lookup(db.attribs, v)) == LV)
  {
    hide NextApplicant, Announcement, TxPdu, WalkedAll, Kept, ReclaimNotes, NotesOf, CalmedAll, SettledAll, Lookup;
    var o := Lookup(db.attribs, v);
    if o.Some? && o.value.reg.state == IN && input in {LeaveAllHeard, LvaTick} {
      LeavesSomewhere(db.attribs, v, if input.LeaveAllHeard? then RLa else TxLa);
    }
  }

  lemma LeavesSomewhere(s: seq<Attrib>, v: vid, e: Event)
    requires Lookup(s, v).Some? && StartsLeaveTimer(Lookup(s, v).value.reg, e)
    ensures AnyLeaves(s, e)
  {
    LookupFound(s, v);
    var a := Lookup(s, v).value;
    var i :| 0 <= i < |s| && s[i] == a;
    assert StartsLeaveTimer(s[i].reg, e);
  }

  lemma LvStays(p2p: bool, station: mac, db: Db, input: Input)
    requires db.lv && !input.LvTick?
    ensures Step(p2p, station, db, input).db.lv
  {
    hide WalkedAll, TxPdu, Kept, ReclaimNotes, NotesOf, CalmedAll, SettledAll, Lookup, Update, Remove, Handled, Target, WithTarget;
  }

  lemma LookupSomeLeaving(s: seq<Attrib>, v: vid)
    requires RegistrarOf(Lookup(s, v)) == LV
    ensures SomeLeaving(s)
  {
    LookupFound(s, v);
    var i :| 0 <= i < |s| && s[i] == Lookup(s, v).value;
    assert s[i].reg.state == LV;
  }

  /** In every run a registrar in LV means the leave timer is running. */
  lemma {:induction false} LeaveTimerCovers(p2p: bool, station: mac, run: seq<Input>)
    requires PossibleRun(run)
    ensures SomeLeaving(After(p2p, station, run).attribs) ==> After(p2p, station, run).lv
  {
    hide Step, VidStep, Valid, Lookup, RegistrarOf;
    if run != [] {
      var before, last := run[..|run| - 1], run[|run| - 1];
      var db, db' := After(p2p, station, before), After(p2p, station, run);
      LeaveTimerCovers(p2p, station, before);
      if SomeLeaving(db'.attribs) {
        var i :| 0 <= i < |db'.attribs| && db'.attribs[i].reg.state == LV;
        var v := db'.attribs[i].vid;
        RunPerVid(p2p, station, before, v);
        RunPerVid(p2p, station, run, v);
        StepPerVid(p2p, station, db, last, v);
        LeavingAt(db'.attribs, i, db');
        LeavingStep(p2p, station, db, last, v);
        if !db'.lv {
          LookupSomeLeaving(db.attribs, v);
          LvStays(p2p, station, db, last);
        }
      }
    }
  }

  lemma LeavingAt(s: seq<Attrib>, i: nat, db: Db)
    requires Valid(db) && db.attribs == s && i < |s| && s[i].reg.state == LV
    ensures RegistrarOf(Lookup(s, s[i].vid)) == LV
  {
    LookupAt(s, i);
  }

  /** When the leave timer fires, nothing is left leaving and nothing reclaimable stays listed. */
  lemma LeaveTimerClears(p2p: bool, station: mac, db: Db, i: nat)
    requires Valid(db)
    requires i < |Step(p2p, station, db, LvTick).db.attribs|
    ensures var s := Step(p2p, station, db, LvTick).db.attribs;
            s[i].reg.state != LV && !Reclaimable(s[i])
    ensures !Step(p2p, station, db, LvTick).db.lv
  {
    var walked := WalkedAll(p2p, db.attribs, LvTimer);
    KeptMembers(walked);
    var a := Kept(walked)[i];
    var k :| 0 <= k < |walked| && walked[k] == a;
    assert a == Walked(p2p, db.attribs[k], LvTimer);
  }

  // ---------------------------------------------------------------- Join timer

  predicate QuietState(s: ApplicantState) {
    s in {VO, QA, AO, QO, QP}
  }

  ghost predicate Quiet(s: seq<Attrib>) {
    forall i :: 0 <= i < |s| ==> QuietState(s[i].app.state)
  }

  ghost predicate SomeIn(s: seq<Attrib>, states: set<ApplicantState>) {
    exists i :: 0 <= i < |s| && s[i].app.state in states
  }

  ghost predicate AllAnnounced(s: seq<Attrib>) {
    forall i :: 0 <= i < |s| ==> s[i].app.state in {AN, AA, QA, AP, QP}
  }

  lemma TxStates(p2p: bool, station: mac, db: Db, i: nat)
    requires i < |db.attribs|
    ensures var s := Step(p2p, station, db, TxTick).db.attribs;
            && |s| == |db.attribs|
            && s[i].app.state == NextApplicant(p2p, db.attribs[i].app.state, Tx, db.attribs[i].reg.state == IN)
            && WalkedAll(p2p, db.attribs, Tx)[i].app.state == s[i].app.state
            && WalkedAll(p2p, db.attribs, Tx)[i].app.previous == Some(db.attribs[i].app.state)
  {
    hide NextApplicant, Announcement, TxPdu, NotesOf;
  }

  /** After a transmit opportunity the join timer runs exactly when some applicant is in AN or AA. */
  lemma JoinTimerAfterTx(p2p: bool, station: mac, db: Db)
    ensures var out := Step(p2p, station, db, TxTick).db;
            && (out.join <==> SomeIn(out.attribs, {AN, AA}))
            && (!out.join ==> Quiet(out.attribs))
  {
    hide TxPdu, NotesOf, Announcement;
    var out := Step(p2p, station, db, TxTick).db;
    var walked := WalkedAll(p2p, db.attribs, Tx);
    assert |out.attribs| == |walked| == |db.attribs|;
    forall i | 0 <= i < |walked|
      ensures TransitionImpliesTx(walked[i].app) <==> out.attribs[i].app.state in {AN, AA}
      ensures out.attribs[i].app.state in {AN, AA} || QuietState(out.attribs[i].app.state)
    {
      TxStates(p2p, station, db, i);
    }
  }

  /** Leave timer and reclaim only drop attributes, they never wake an applicant. */
  lemma DropsKeepQuiet(p2p: bool, station: mac, db: Db, input: Input)
    requires Quiet(db.attribs) && (input.LvTick? || input.Reclaim?)
    ensures Quiet(Step(p2p, station, db, input).db.attribs)
  {
    hide NotesOf, ReclaimNotes, Reclaimable;
    var walked := if input.LvTick? then WalkedAll(p2p, db.attribs, LvTimer) else db.attribs;
    assert forall i :: 0 <= i < |walked| ==> walked[i].app.state == db.attribs[i].app.state;
    KeptMembers(walked);
    var t := Kept(walked);
    forall i | 0 <= i < |t| ensures QuietState(t[i].app.state) {
      var k :| 0 <= k < |walked| && walked[k] == t[i];
    }
  }

  lemma EmptyQuiet()
    ensures Quiet([])
  {
  }

  /**
    Sending a LeaveAll stops the join timer, and leaves only quiet applicants exactly when all
    of them were already announced declarations.
   */
  lemma LeaveAllStopsJoinTimer(p2p: bool, station: mac, db: Db)
    ensures var out := Step(p2p, station, db, LvaTick).db;
            && !out.join
            && (Quiet(out.attribs) <==> AllAnnounced(db.attribs))
  {
    hide TxPdu, NotesOf, Announcement, AnyLeaves;
    var out := Step(p2p, station, db, LvaTick).db;
    assert |out.attribs| == |db.attribs|;
    forall i | 0 <= i < |db.attribs|
      ensures QuietState(out.attribs[i].app.state) <==> db.attribs[i].app.state in {AN, AA, QA, AP, QP}
    {
      assert out.attribs[i].app.state == NextApplicant(p2p, db.attribs[i].app.state, TxLa, db.attribs[i].reg.state == IN);
    }
    if Quiet(out.attribs) {
      forall i | 0 <= i < |db.attribs| ensures db.attribs[i].app.state in {AN, AA, QA, AP, QP} {
        assert QuietState(out.attribs[i].app.state);
      }
    }
  }

  /** The run without its trailing leave timer expiries and reclaims. */
  function Trimmed(run: seq<Input>): (r: seq<Input>)
    ensures |r| <= |run| && r == run[..|r|]
    ensures r != [] ==> !r[|r| - 1].LvTick? && !r[|r| - 1].Reclaim?
  {
    if run == [] then []
    else
      var last := run[|run| - 1];
      if last.LvTick? || last.Reclaim? then Trimmed(run[..|run| - 1]) else run
  }

  /** The last thing that concerned the applicants was a LeaveAll sent while some had yet to be announced. */
  ghost predicate WaitsUnserved(p2p: bool, station: mac, run: seq<Input>) {
    var r := Trimmed(run);
    r != [] && r[|r| - 1].LvaTick? && !AllAnnounced(After(p2p, station, r[..|r| - 1]).attribs)
  }

  /** Applicants as a LeaveAll leaves them: none of them lets its attribute be reclaimed. */
  ghost predicate JustLeftAll(s: seq<Attrib>) {
    forall i :: 0 <= i < |s| ==> s[i].app.state in {AA, AN, QA, LO}
  }

  lemma LvaStates(p2p: bool, station: mac, db: Db)
    ensures var out := Step(p2p, station, db, LvaTick).db;
            && !out.join && JustLeftAll(out.attribs)
            && (Quiet(out.attribs) <==> AllAnnounced(db.attribs))
  {
    hide TxPdu, NotesOf, Announcement, AnyLeaves;
    var out := Step(p2p, station, db, LvaTick).db;
    LeaveAllStopsJoinTimer(p2p, station, db);
    forall i | 0 <= i < |out.attribs| ensures out.attribs[i].app.state in {AA, AN, QA, LO} {
      assert out.attribs[i].app.state == NextApplicant(p2p, db.attribs[i].app.state, TxLa, db.attribs[i].reg.state == IN);
    }
  }

  lemma {:induction false} KeptAll(s: seq<Attrib>)
    requires JustLeftAll(s)
    ensures Kept(s) == s
  {
    if s != [] {
      assert JustLeftAll(s[1..]);
      KeptAll(s[1..]);
      assert s[0].app.state in {AA, AN, QA, LO};
    }
  }

  /** After a LeaveAll, leave timer expiry and reclaim keep every applicant where it is. */
  lemma IdleKeepsStates(p2p: bool, station: mac, db: Db, input: Input)
    requires JustLeftAll(db.attribs) && (input.LvTick? || input.Reclaim?)
    ensures var out := Step(p2p, station, db, input).db;
            out.join == db.join && JustLeftAll(out.attribs) && (Quiet(out.attribs) <==> Quiet(db.attribs))
  {
    hide NotesOf, ReclaimNotes, WalkedAll, Quiet, JustLeftAll, CalmedAll, Kept;
    var walked := if input.LvTick? then WalkedAll(p2p, db.attribs, LvTimer) else db.attribs;
    LvTimerKeepsStates(p2p, db.attribs);
    KeptAll(walked);
    CalmedKeepsStates(walked);
  }

  lemma LvTimerKeepsStates(p2p: bool, s: seq<Attrib>)
    ensures Quiet(s) <==> Quiet(WalkedAll(p2p, s, LvTimer))
    ensures JustLeftAll(s) <==> JustLeftAll(WalkedAll(p2p, s, LvTimer))
  {
    hide Quiet, JustLeftAll;
    SameStates(s, WalkedAll(p2p, s, LvTimer));
  }

  lemma CalmedKeepsStates(s: seq<Attrib>)
    ensures Quiet(s) <==> Quiet(CalmedAll(s))
    ensures JustLeftAll(s) <==> JustLeftAll(CalmedAll(s))
  {
    hide Quiet, JustLeftAll;
    SameStates(s, CalmedAll(s));
  }

  lemma SameStates(s: seq<Attrib>, t: seq<Attrib>)
    requires |s| == |t| && forall i :: 0 <= i < |s| ==> t[i].app.state == s[i].app.state
    ensures Quiet(s) <==> Quiet(t)
    ensures JustLeftAll(s) <==> JustLeftAll(t)
  {
    if Quiet(t) {
      forall i | 0 <= i < |s| ensures QuietState(s[i].app.state) {
        assert QuietState(t[i].app.state);
      }
    }
    if JustLeftAll(t) {
      forall i | 0 <= i < |s| ensures s[i].app.state in {AA, AN, QA, LO} {
        assert t[i].app.state in {AA, AN, QA, LO};
      }
    }
  }

  /** Every other input leaves the join timer running or all applicants quiet. */
  lemma OthersServe(p2p: bool, station: mac, db: Db, input: Input)
    requires Possible(input) && input !in {LvTick, Reclaim, LvaTick}
    ensures var out := Step(p2p, station, db, input).db; out.join || Quiet(out.attribs)
  {
    hide TxPdu, NotesOf, Announcement, NextApplicant, Handled, Target, WithTarget, Kept, ReclaimNotes, AnyLeaves;
    if input.TxTick? {
      JoinTimerAfterTx(p2p, station, db);
    } else if input.PeriodicTick? {
      assert |Step(p2p, station, db, input).db.attribs| == |db.attribs|;
    }
  }

  ghost predicate Served(db: Db) {
    db.join || Quiet(db.attribs)
  }

  lemma {:induction false} ServedPerRun(p2p: bool, station: mac, run: seq<Input>)
    requires PossibleRun(run)
    ensures Served(After(p2p, station, run)) <==> !WaitsUnserved(p2p, station, run)
    ensures var r := Trimmed(run);
            r != [] && r[|r| - 1].LvaTick? ==>
              !After(p2p, station, run).join && JustLeftAll(After(p2p, station, run).attribs)
  {
    hide Step, Quiet, JustLeftAll, Possible;
    if run == [] {
      EmptyQuiet();
    } else {
      var before, last := run[..|run| - 1], run[|run| - 1];
      var db := After(p2p, station, before);
      assert Possible(last);
      ServedPerRun(p2p, station, before);
      if last.LvTick? || last.Reclaim? {
        var r := Trimmed(before);
        assert Trimmed(run) == r;
        if r != [] && r[|r| - 1].LvaTick? {
          IdleKeepsStates(p2p, station, db, last);
        } else {
          IdleServes(p2p, station, db, last);
        }
      } else if last.LvaTick? {
        LvaStates(p2p, station, db);
      } else {
        OthersServe(p2p, station, db, last);
      }
    }
  }

  lemma IdleServes(p2p: bool, station: mac, db: Db, input: Input)
    requires Served(db) && (input.LvTick? || input.Reclaim?)
    ensures Served(Step(p2p, station, db, input).db)
  {
    hide NotesOf, ReclaimNotes, Quiet, Kept, WalkedAll, CalmedAll;
    if Quiet(db.attribs) {
      DropsKeepQuiet(p2p, station, db, input);
    }
  }

  /**
    In every run the join timer runs or all applicants are quiet, unless the last input, leave
    timer expiries and reclaims aside, is a LeaveAll sent while some applicant was not an
    announced declaration; and then neither holds.
   */
  lemma JoinTimerExact(p2p: bool, station: mac, run: seq<Input>)
    requires PossibleRun(run)
    ensures var db := After(p2p, station, run);
            db.join || Quiet(db.attribs) <==> !WaitsUnserved(p2p, station, run)
  {
    hide WaitsUnserved, Quiet, After;
    ServedPerRun(p2p, station, run);
  }

  /** A client joins and a LeaveAll goes out: the applicant waits with the join timer off. */
  lemma JoinThenLeaveAllWaits(p2p: bool, station: mac, v: vid, mac: seq<int>)
    ensures var db := After(p2p, station, [Apply(Join, v, mac), LvaTick]); !db.join && !Quiet(db.attribs)
  {
    hide Step, Quiet;
    var joined, run := [Apply(Join, v, mac)], [Apply(Join, v, mac), LvaTick];
    assert run[..1] == joined && joined[..0] == [];
    var db := After(p2p, station, joined);
    RunPerVid(p2p, station, joined, v);
    assert VidAfter(p2p, joined, v) == VidStep(p2p, None, joined[0], v);
    assert Lookup(db.attribs, v).Some? && Lookup(db.attribs, v).value.app.state == VP;
    LookupFound(db.attribs, v);
    var i :| 0 <= i < |db.attribs| && db.attribs[i] == Lookup(db.attribs, v).value;
    assert db.attribs[i].app.state !in {AN, AA, QA, AP, QP};
    LvaStates(p2p, station, db);
  }

  // ---------------------------------------------------------------- Reaching quiet

  function Rank(s: ApplicantState): nat {
    match s
    case VN => 3
    case VP | AN => 2
    case AA | AP | LA | LO => 1
    case _ => 0
  }

  function RankSum(s: seq<Attrib>): nat {
    if s == [] then 0 else Rank(s[0].app.state) + RankSum(s[1..])
  }

  ghost predicate RankAtMost(s: seq<Attrib>, n: nat) {
    forall i :: 0 <= i < |s| ==> Rank(s[i].app.state) <= n
  }

  lemma {:induction false} RankSumDrops(s: seq<Attrib>, t: seq<Attrib>)
    requires |s| == |t|
    requires forall i :: 0 <= i < |s| ==>
                           var r := Rank(s[i].app.state); Rank(t[i].app.state) <= if r == 0 then 0 else r - 1
    ensures RankSum(t) <= RankSum(s) && (RankSum(s) > 0 ==> RankSum(t) < RankSum(s))
  {
    if s != [] {
      RankSumDrops(s[1..], t[1..]);
    }
  }

  lemma {:induction false} RankSumZero(s: seq<Attrib>)
    ensures RankSum(s) == 0 <==> Quiet(s)
  {
    if s != [] {
      RankSumZero(s[1..]);
      assert Quiet(s) <==> QuietState(s[0].app.state) && Quiet(s[1..]) by {
        if Quiet(s) {
          forall i | 0 <= i < |s[1..]| ensures QuietState(s[1..][i].app.state) {
            assert s[1..][i] == s[i + 1];
          }
        }
        if QuietState(s[0].app.state) && Quiet(s[1..]) {
          forall i | 0 <= i < |s| ensures QuietState(s[i].app.state) {
            if i > 0 {
              assert s[i] == s[1..][i - 1];
            }
          }
        }
      }
    }
  }

  /** Every transmit opportunity lowers the rank sum until it is 0, which is quiet. */
  lemma TxLowersRank(p2p: bool, station: mac, db: Db)
    ensures var out := Step(p2p, station, db, TxTick).db;
            && (RankSum(db.attribs) > 0 ==> RankSum(out.attribs) < RankSum(db.attribs))
            && (forall n: nat :: RankAtMost(db.attribs, n) ==> RankAtMost(out.attribs, if n == 0 then 0 else n - 1))
            && (RankSum(out.attribs) == 0 <==> Quiet(out.attribs))
  {
    hide Step, RankSum;
    var out := Step(p2p, station, db, TxTick).db;
    EmptyOrNot(p2p, station, db);
    forall i | 0 <= i < |db.attribs|
      ensures var r := Rank(db.attribs[i].app.state); Rank(out.attribs[i].app.state) <= if r == 0 then 0 else r - 1
    {
      TxStates(p2p, station, db, i);
    }
    RankSumDrops(db.attribs, out.attribs);
    RankSumZero(out.attribs);
  }

  lemma EmptyOrNot(p2p: bool, station: mac, db: Db)
    ensures |Step(p2p, station, db, TxTick).db.attribs| == |db.attribs|
  {
  }

  /** From any database, three transmit opportunities in a row end quiet with the join timer off. */
  lemma ThreeTxReachQuiet(p2p: bool, station: mac, db: Db)
    ensures var one := Step(p2p, station, db, TxTick).db;
            var two := Step(p2p, station, one, TxTick).db;
            var three := Step(p2p, station, two, TxTick).db;
            Quiet(three.attribs) && !three.join
  {
    hide Step, RankSum;
    var one := Step(p2p, station, db, TxTick).db;
    var two := Step(p2p, station, one, TxTick).db;
    var three := Step(p2p, station, two, TxTick).db;
    assert RankAtMost(db.attribs, 3);
    TxLowersRank(p2p, station, db);
    assert RankAtMost(one.attribs, 2);
    TxLowersRank(p2p, station, one);
    assert RankAtMost(two.attribs, 1);
    TxLowersRank(p2p, station, two);
    assert RankAtMost(three.attribs, 0);
    JoinTimerAfterTx(p2p, station, two);
    RankZeroQuiet(three.attribs);
  }

  lemma RankZeroQuiet(s: seq<Attrib>)
    requires RankAtMost(s, 0)
    ensures Quiet(s) && !SomeIn(s, {AN, AA})
  {
    forall i | 0 <= i < |s| ensures QuietState(s[i].app.state) {
      assert Rank(s[i].app.state) <= 0;
    }
  }
}
