/**
  What an MSRP participant puts on the wire, over every run: New and Join only of what its
  clients declare, Lv only of what they have withdrawn.
 */
module MsrpAnnounced {
  import opened Mrp
  import opened Mrpdu
  import opened MrpduParse
  import Mvrp
  import MvrpRuns
  import opened Msrp
  import opened MsrpRuns
  import opened MsrpKeys
  import opened MsrpDeclared
  import opened MsrpWire
  import opened MsrpFrames
  import opened MsrpStations
  import MsrpDaemon

  lemma SaysWhatIsDeclared(p2p: bool, a: Attrib, e: Event, ev: event)
    requires e in {Tx, TxLa}
    requires var w := Walked(p2p, a, e, None); Mvrp.EventCode(w.app.snd, w.reg.state) == Some(ev)
    ensures ev in {EV_NEW, EV_JOININ, EV_JOINMT} ==> MvrpRuns.DeclaredState(a.app.state)
    ensures ev == EV_LV ==> !MvrpRuns.DeclaredState(a.app.state)
  {
    hide NextApplicant;
  }

  /** What is listed while a frame is built. */
  lemma WalkedList(p2p: bool, db: Db, e: Event)
    requires Valid(db) && e in {Tx, TxLa}
    ensures var w := WalkedAll(p2p, db.attribs, e, None);
            CleanList(w) && forall i :: 0 <= i < |w| ==> KeyOf(w[i]) == KeyOf(db.attribs[i])
  {
    hide Walked, KeyOf, AnyLeaves, UniqueKeys;
    var w := WalkedAll(p2p, db.attribs, e, None);
    var lv := db.lv || AnyLeaves(db.attribs, e, None);
    WalkKeeps(p2p, db.attribs, e, None, db.lv, lv);
    SettledListClean(w, lv);
    forall i | 0 <= i < |w| ensures KeyOf(w[i]) == KeyOf(db.attribs[i]) {
      WalkedKey(p2p, db.attribs[i], e, None);
    }
  }

  lemma FrameSent(p2p: bool, station: Mvrp.mac, db: Db, input: Input)
    requires Valid(db) && input in {TxTick, LvaTick}
    ensures var e, lva := if input.TxTick? then Tx else TxLa, input.LvaTick?;
            MsrpDaemon.FrameAt(p2p, station, db, input) == TxPdu(station, WalkedAll(p2p, db.attribs, e, None), lva, lva)
  {
    hide TxPdu, WalkedAll;
  }

  /**
    In every run, the frame of the next transmit opportunity or LeaveAll says New or Join only
    of keys that are declared, and Lv only of keys that are not.
   */
  lemma OnlyDeclaredAnnounced(p2p: bool, pruning: bool, station: Mvrp.mac, run: seq<Input>, input: Input, d: Dispatch)
    requires PossibleRun(run) && input in {TxTick, LvaTick}
    requires var frame := MsrpDaemon.FrameAt(p2p, station, After(p2p, pruning, run), input);
             frame.Some? && d in ReceiveFrame(frame.value).out && Sound(d)
    ensures d.ev in {EV_NEW, EV_JOININ, EV_JOINMT} ==> DeclaredBy(p2p, pruning, run, KeyHeard(d))
    ensures d.ev == EV_LV ==> !DeclaredBy(p2p, pruning, run, KeyHeard(d))
  {
    hide After, TxPdu, ReceiveFrame, MsrpDaemon.FrameAt, Valid, KeyOf, CleanList, Says, KeyHeard, Walked, DeclaredBy, MvrpRuns.DeclaredState, Possible, Get, UniqueKeys;
    var db := After(p2p, pruning, run);
    RunKeepsValid(p2p, pruning, run);
    FrameSent(p2p, station, db, input);
    var e, lva := if input.TxTick? then Tx else TxLa, input.LvaTick?;
    var w := WalkedAll(p2p, db.attribs, e, None);
    WalkedList(p2p, db, e);
    var j := FrameTellsTruth(station, w, lva, d);
    SaysKey(d, w[j]);
    SaysTalker(d, w[j]);
    assert w[j] == Walked(p2p, db.attribs[j], e, None);
    SaysWhatIsDeclared(p2p, db.attribs[j], e, d.ev);
    KeysOnce(db);
    GetAt(db.attribs, j, KeyHeard(d));
    DeclaredExactly(p2p, pruning, run, KeyHeard(d));
  }

  lemma KeysOnce(db: Db)
    requires Valid(db)
    ensures UniqueKeys(db.attribs)
  {
  }
}
