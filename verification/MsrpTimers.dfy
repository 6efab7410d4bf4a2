/**
  The MSRP join timer, over every run and for every key: an applicant with something to send
  has a transmit opportunity coming, except while a LeaveAll is the last thing that concerned
  the applicants.
 */
module MsrpTimers {
  import opened Mrp
  import opened Mrpdu
  import opened Msrp
  import opened MsrpRuns
  import opened MsrpKeys
  import opened MsrpDeclared
  import MvrpTimers

  /** The attribute of a key, if its applicant has something to send. */
  predicate Waits(o: Option<Attrib>) {
    o.Some? && !MvrpTimers.QuietState(o.value.app.state)
  }

  predicate Announced(o: Option<Attrib>) {
    o.Some? && o.value.app.state in {AN, AA, QA, AP, QP}
  }

  /** Inputs that neither start nor stop the join timer. */
  predicate Idle(db: Db, input: Input) {
    match input
    case Apply(_, r) => !Interested(db, r)
    case LvTick | PeriodicTick | Reclaim | Interest(_, _) | Uninterest(_) | UninterestAll => true
    case _ => false
  }

  /** I-S that finds its stream listed and without a listener. */
  predicate TakesOut(db: Db, input: Input, key: Key) {
    && input.Uninterest? && key == TalkerKey(input.id)
    && db.pruning && input.id in db.interesting && !Has(db.attribs, ListenerKey(input.id))
  }

  /**
    The key was listed when a LeaveAll was sent, not as an announced declaration; since then only
    idle inputs came, and none of them took it out.
   */
  predicate LeftWaiting(p2p: bool, pruning: bool, run: seq<Input>, key: Key) {
    run != [] &&
    var before, last := run[..|run| - 1], run[|run| - 1];
    var db := After(p2p, pruning, before);
    if last.LvaTick? then Has(db.attribs, key) && !Announced(Get(db.attribs, key))
    else Idle(db, last) && LeftWaiting(p2p, pruning, before, key) && !TakesOut(db, last, key)
  }

  // ---------------------------------------------------------------- Lists, one key at a time

  lemma FlagsState(s: seq<Attrib>, key: Key)
    requires UniqueKeys(s)
    ensures UniqueKeys(SettledAll(s)) && UniqueKeys(CalmedAll(s))
    ensures Waits(Get(SettledAll(s), key)) <==> Waits(Get(s, key))
    ensures Waits(Get(CalmedAll(s), key)) <==> Waits(Get(s, key))
  {
    hide KeyOf, UniqueKeys, MvrpTimers.QuietState;
    FlagsKey(s);
    GetMapped(s, SettledAll(s), key);
    GetMapped(s, CalmedAll(s), key);
  }

  /** The attribute of a key after a walk is its attribute walked. */
  lemma WalkGet(p2p: bool, s: seq<Attrib>, e: Event, key: Key)
    requires UniqueKeys(s)
    ensures var w, o := WalkedAll(p2p, s, e, None), Get(s, key);
            && UniqueKeys(w)
            && Get(w, key) == if o.Some? then Some(Walked(p2p, o.value, e, None)) else None
  {
    hide Walked, KeyOf, UniqueKeys;
    var w := WalkedAll(p2p, s, e, None);
    forall i | 0 <= i < |s| ensures KeyOf(w[i]) == KeyOf(s[i]) {
      WalkedKey(p2p, s[i], e, None);
    }
    GetMapped(s, w, key);
  }

  /** An applicant that has something to send keeps its attribute listed. */
  lemma KeptWaits(s: seq<Attrib>, key: Key)
    requires UniqueKeys(s)
    ensures UniqueKeys(Kept(s)) && (Waits(Get(Kept(s), key)) <==> Waits(Get(s, key)))
  {
    hide KeyOf, UniqueKeys, Kept;
    var f := KeptWithin(s);
    WithinKeeps(Kept(s), s, f, true);
    GetKept(s, key);
  }

  // ---------------------------------------------------------------- One step

  lemma WalkedStates(p2p: bool, a: Attrib)
    ensures Walked(p2p, a, LvTimer, None).app == a.app
    ensures !MvrpTimers.QuietState(Walked(p2p, a, TxLa, None).app.state) <==> a.app.state !in {AN, AA, QA, AP, QP}
    ensures var w := Walked(p2p, a, Tx, None); MvrpTimers.QuietState(w.app.state) || TransitionImpliesTx(w.app)
  {
    hide Announcement;
  }

  /** After a transmit opportunity every applicant is quiet, or the join timer runs. */
  lemma TxServes(p2p: bool, db: Db, key: Key)
    requires UniqueKeys(db.attribs)
    ensures var out := Step(p2p, db, TxTick); out.join || !Waits(Get(out.attribs, key))
  {
    hide Walked, KeyOf, UniqueKeys, MvrpTimers.QuietState, TransitionImpliesTx;
    var s := db.attribs;
    var w := WalkedAll(p2p, s, Tx, None);
    WalkGet(p2p, s, Tx, key);
    FlagsState(w, key);
    FlagsState(SettledAll(w), key);
    var k := Find(w, key);
    if Waits(Get(w, key)) {
      WalkedStates(p2p, s[k]);
      assert TransitionImpliesTx(w[k].app);
    }
  }

  lemma LvaLeaves(p2p: bool, db: Db, key: Key)
    requires UniqueKeys(db.attribs)
    ensures var out, o := Step(p2p, db, LvaTick), Get(db.attribs, key);
            !out.join && (Waits(Get(out.attribs, key)) <==> o.Some? && !Announced(o))
  {
    hide Walked, KeyOf, UniqueKeys, MvrpTimers.QuietState, AnyLeaves, Get;
    var s := db.attribs;
    var w := WalkedAll(p2p, s, TxLa, None);
    WalkGet(p2p, s, TxLa, key);
    FlagsState(w, key);
    FlagsState(SettledAll(w), key);
    if Get(s, key).Some? {
      WalkedStates(p2p, Get(s, key).value);
    }
  }

  lemma LvKeeps(p2p: bool, db: Db, key: Key)
    requires UniqueKeys(db.attribs)
    ensures var out := Step(p2p, db, LvTick);
            out.join == db.join && (Waits(Get(out.attribs, key)) <==> Waits(Get(db.attribs, key)))
  {
    hide Walked, KeyOf, UniqueKeys, MvrpTimers.QuietState, Get, Kept;
    var s := db.attribs;
    var w := WalkedAll(p2p, s, LvTimer, None);
    WalkGet(p2p, s, LvTimer, key);
    KeptWaits(w, key);
    FlagsState(Kept(w), key);
    if Get(s, key).Some? {
      WalkedStates(p2p, Get(s, key).value);
    }
  }

  /** Idle inputs leave the join timer alone, and every waiting applicant that they do not take out. */
  lemma IdleKeeps(p2p: bool, db: Db, input: Input, key: Key)
    requires Valid(db) && Idle(db, input)
    ensures var out := Step(p2p, db, input);
            && out.join == db.join
            && (Waits(Get(out.attribs, key)) <==> Waits(Get(db.attribs, key)) && !TakesOut(db, input, key))
  {
    hide KeyOf, UniqueKeys, AllSettle, Quiet, MvrpTimers.QuietState, Interested, CalmedAll, WalkedAll, Kept, WithoutTalkers, Get, Find, Has;
    match input
    case Apply(e, r) => PrunedTalkerIgnored(p2p, db, e, r);
    case LvTick => LvKeeps(p2p, db, key);
    case PeriodicTick => FlagsState(db.attribs, key);
    case Reclaim => KeptWaits(db.attribs, key);
    case Interest(_, _) =>
    case Uninterest(id) => GetWithout(db.attribs, id, key);
    case UninterestAll =>
  }

  /** Every input that is neither idle nor a LeaveAll or transmit opportunity starts the join timer. */
  lemma OthersStart(p2p: bool, db: Db, input: Input)
    requires !Idle(db, input) && !input.TxTick? && !input.LvaTick?
    ensures Step(p2p, db, input).join
  {
    hide KeyOf, Has, WithTarget, Touched, CalmedAll, WalkedAll, WithoutTalkers, Interested, StartsLeaveTimer, AnyLeaves, WithdrawnListener;
    if input.Withdraw? {
      WithdrawnInterests(db, input.id, input.mac);
    }
  }

  // ---------------------------------------------------------------- Every run

  /**
    In every run and for every key: the key's applicant has something to send while no join
    timer runs, exactly if a LeaveAll left it so and nothing but idle inputs came since.
   */
  lemma {:induction false} WaitsExactly(p2p: bool, pruning: bool, run: seq<Input>, key: Key)
    requires PossibleRun(run)
    ensures var db := After(p2p, pruning, run);
            !db.join && Waits(Get(db.attribs, key)) <==> LeftWaiting(p2p, pruning, run, key)
  {
    hide Step, Waits, Announced, Idle, TakesOut, Possible, Valid;
    if run == [] {
      NothingWaits(key);
    } else {
      var before, last := run[..|run| - 1], run[|run| - 1];
      var db := After(p2p, pruning, before);
      WaitsExactly(p2p, pruning, before, key);
      RunKeepsValid(p2p, pruning, before);
      ValidKeys(db);
      if last.LvaTick? {
        LvaLeaves(p2p, db, key);
      } else if Idle(db, last) {
        IdleKeeps(p2p, db, last, key);
      } else if last.TxTick? {
        TxServes(p2p, db, key);
      } else {
        OthersStart(p2p, db, last);
      }
    }
  }

  lemma NothingWaits(key: Key)
    ensures !Waits(Get([], key))
  {
  }

  lemma ValidKeys(db: Db)
    requires Valid(db)
    ensures UniqueKeys(db.attribs)
  {
  }

  ghost predicate AllQuiet(s: seq<Attrib>) {
    forall i :: 0 <= i < |s| ==> MvrpTimers.QuietState(s[i].app.state)
  }

  /**
    In every run the join timer runs or all applicants are quiet, exactly if no key was left
    waiting by a LeaveAll.
   */
  lemma JoinTimerExact(p2p: bool, pruning: bool, run: seq<Input>)
    requires PossibleRun(run)
    ensures var db := After(p2p, pruning, run);
            db.join || AllQuiet(db.attribs) <==> forall key :: !LeftWaiting(p2p, pruning, run, key)
  {
    hide After, KeyOf, MvrpTimers.QuietState, LeftWaiting, UniqueKeys, Valid, Possible;
    var db := After(p2p, pruning, run);
    RunKeepsValid(p2p, pruning, run);
    ValidKeys(db);
    forall key ensures LeftWaiting(p2p, pruning, run, key) <==> !db.join && Waits(Get(db.attribs, key)) {
      WaitsExactly(p2p, pruning, run, key);
    }
    if i :| 0 <= i < |db.attribs| && !MvrpTimers.QuietState(db.attribs[i].app.state) {
      GetAt(db.attribs, i, KeyOf(db.attribs[i]));
      assert db.join || LeftWaiting(p2p, pruning, run, KeyOf(db.attribs[i]));
    }
  }

  /** A client declares a listener, and the LeaveAll timer fires before the join timer. */
  lemma JoinThenLeaveAllWaits(p2p: bool, pruning: bool, id: id8)
    ensures var run := [Apply(Join, Fresh(Listener, id, []).(sub := 2)), LvaTick];
            var db := After(p2p, pruning, run);
            PossibleRun(run) && !db.join && Waits(Get(db.attribs, ListenerKey(id)))
  {
    hide Step, Valid, Get, Handled, Has;
    var r := Fresh(Listener, id, []).(sub := 2);
    TwoInputs(p2p, pruning, Apply(Join, r), LvaTick);
    FirstRegistered(p2p, pruning, Join, r);
    var db := Step(p2p, InitialDb(pruning), Apply(Join, r));
    ValidKeys(db);
    LvaLeaves(p2p, db, ListenerKey(id));
  }
}
