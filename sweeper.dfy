/**
 * `cleanupMutes`: every record due at `now` (end time at or before `now`) is
 * unmuted, one after the other, in store order. `gatewayOk` gives the answer
 * of the gateway call made while unmuting each triple.
 */
module Sweeper {
  import opened Wrappers
  import opened Permissions
  import opened MuteStore
  import opened Reconciler

  /** The world after unmuting the records of `due` in order. */
  function Sweep(w: World, due: seq<MuteRecord>, gatewayOk: Triple -> bool): (r: World)
    ensures Unique(w.mutes) ==> Unique(r.mutes)
    decreases |due|
  {
    if due == [] then w
    else
      var last := due[|due| - 1];
      Unmute(Sweep(w, due[..|due| - 1], gatewayOk), last.Key(), gatewayOk(last.Key())).after
  }

  /** Sweeping one more due record is one more unmute. */
  lemma SweepStep(w: World, due: seq<MuteRecord>, i: nat, gatewayOk: Triple -> bool)
    requires i < |due|
    ensures Sweep(w, due[..i + 1], gatewayOk)
         == Unmute(Sweep(w, due[..i], gatewayOk), due[i].Key(), gatewayOk(due[i].Key())).after
  {
    assert due[..i + 1][..i] == due[..i];
  }

  /**
   * A sweep adds no record, keeps every record whose triple it does not
   * unmute, lifts every triple whose gateway call is accepted, and touches no
   * overwrite outside the unmuted triples.
   */
  lemma {:induction false} SweepFrame(w: World, due: seq<MuteRecord>, gatewayOk: Triple -> bool)
    requires Unique(w.mutes)
    ensures var r := Sweep(w, due, gatewayOk);
      && (forall m :: m in r.mutes ==> m in w.mutes)
      && (forall m :: m in w.mutes && (forall d :: d in due ==> d.Key() != m.Key()) ==> m in r.mutes)
      && (forall d :: d in due && gatewayOk(d.Key()) ==> FindOne(r.mutes, d.Key()).None?)
      && (forall slot :: (forall d :: d in due ==> d.Key().Slot() != slot) ==>
            Lookup(r.overwrites, slot) == Lookup(w.overwrites, slot))
  {
    if due != [] {
      var init := due[..|due| - 1];
      var last := due[|due| - 1];
      assert due == init + [last];
      SweepFrame(w, init, gatewayOk);
      var before := Sweep(w, init, gatewayOk);
      UnmuteFrame(before, last.Key(), gatewayOk(last.Key()));
    }
  }

  /**
   * A due record whose gateway call is refused while its overwrite exists
   * stays in the store (and its overwrite stays), so the next sweep tries it
   * again. No other unmuted triple may share its channel and user.
   */
  lemma {:induction false} SweepKeepsRefused(w: World, due: seq<MuteRecord>, gatewayOk: Triple -> bool, m: MuteRecord)
    requires Unique(w.mutes) && m in w.mutes && !gatewayOk(m.Key()) && m.Key().Slot() in w.overwrites
    requires forall d :: d in due && d.Key().Slot() == m.Key().Slot() ==> d.Key() == m.Key()
    ensures var r := Sweep(w, due, gatewayOk);
      m in r.mutes && m.Key().Slot() in r.overwrites
  {
    if due != [] {
      var init := due[..|due| - 1];
      var last := due[|due| - 1];
      assert due == init + [last];
      SweepKeepsRefused(w, init, gatewayOk, m);
      var before := Sweep(w, init, gatewayOk);
      UnmuteFrame(before, last.Key(), gatewayOk(last.Key()));
      if last.Key().Slot() != m.Key().Slot() {
        assert Lookup(before.overwrites, m.Key().Slot()).Some?;
      } else {
        assert last.Key() == m.Key();
        assert FindOne(before.mutes, m.Key()).Some?;
      }
    }
  }

  /** In a unique store, two records with the same triple are the same record. */
  lemma SameKeySameRecord(mutes: seq<MuteRecord>, a: MuteRecord, b: MuteRecord)
    requires Unique(mutes) && a in mutes && b in mutes && a.Key() == b.Key()
    ensures a == b
  {
    var i :| 0 <= i < |mutes| && mutes[i] == a;
    var j :| 0 <= j < |mutes| && mutes[j] == b;
    assert i == j;
  }

  /**
   * The sweep at `now` keeps every record that is not yet due, lifts every
   * due triple whose gateway call is accepted, keeps a due record whose call
   * is refused while its overwrite exists (when no other record shares its
   * channel and user), and leaves nothing it did not start with; when every gateway call is accepted the store afterwards holds
   * exactly the records that were not due.
   */
  lemma SweepLiftsExactlyDue(w: World, now: int, gatewayOk: Triple -> bool)
    requires Unique(w.mutes)
    ensures var r := Sweep(w, FindDue(w.mutes, now), gatewayOk);
      && (forall m :: m in w.mutes && m.endTime > now ==> m in r.mutes)
      && (forall m :: m in w.mutes && m.endTime <= now && gatewayOk(m.Key()) ==> FindOne(r.mutes, m.Key()).None?)
      && (forall m :: m in r.mutes ==> m in w.mutes)
      && (forall m :: m in w.mutes && m.endTime <= now && !gatewayOk(m.Key()) && m.Key().Slot() in w.overwrites
            && (forall d :: d in w.mutes && d.Key().Slot() == m.Key().Slot() ==> d.Key() == m.Key())
            ==> m in r.mutes)
      && ((forall t :: gatewayOk(t)) ==> forall m :: m in r.mutes <==> m in w.mutes && m.endTime > now)
  {
    var due := FindDue(w.mutes, now);
    var r := Sweep(w, due, gatewayOk);
    SweepFrame(w, due, gatewayOk);
    forall m | m in w.mutes && m.endTime > now ensures m in r.mutes {
      forall d | d in due ensures d.Key() != m.Key() {
        if d.Key() == m.Key() { SameKeySameRecord(w.mutes, d, m); }
      }
    }
    forall m | m in w.mutes && m.endTime <= now && !gatewayOk(m.Key()) && m.Key().Slot() in w.overwrites
        && (forall d :: d in w.mutes && d.Key().Slot() == m.Key().Slot() ==> d.Key() == m.Key())
      ensures m in r.mutes
    {
      SweepKeepsRefused(w, due, gatewayOk, m);
    }
    if forall t :: gatewayOk(t) {
      forall m | m in r.mutes ensures m.endTime > now {
        assert m in w.mutes;
      }
    }
  }
}
