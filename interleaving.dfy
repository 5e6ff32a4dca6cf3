/**
 * `muteChannel` is asynchronous: it looks the triple up (index.js:96-100),
 * awaits `overwritePermissions` (index.js:106) and only then inserts
 * (index.js:108). Two mutes of one triple whose awaits overlap (two reactions,
 * or a reaction and a `mute` command) both find no record. This module splits
 * a mute at its await, as written and as evidently intended, and runs two
 * overlapping mutes through each.
 */
module Interleaving {
  import opened Wrappers
  import opened Permissions
  import opened MuteStore
  import opened Reconciler

  /** The rest of a fresh mute after the gateway accepted the deny, as written: insert without looking again. */
  function ResumeAsWritten(w: World, t: Triple, endTime: int): World
  {
    var record := MuteRecord(t.guildId, t.channelId, t.userId, endTime);
    World(w.mutes + [record], w.overwrites[t.Slot() := Apply(Lookup(w.overwrites, t.Slot()), Deny)])
  }

  /**
   * As written, two overlapping mutes of an unmuted triple leave two records
   * for it: the store is no longer unique.
   */
  lemma OverlappingMutesDuplicate(w: World, t: Triple, first: int, second: int)
    requires Unique(w.mutes) && FindOne(w.mutes, t).None?
    ensures var after := ResumeAsWritten(ResumeAsWritten(w, t, first), t, second);
      Count(after.mutes, t) == 2 && !Unique(after.mutes)
  {
    var once := ResumeAsWritten(w, t, first);
    var after := ResumeAsWritten(once, t, second);
    CountPresent(w.mutes, t);
    CountAppend(w.mutes, once.mutes[|w.mutes|], t);
    CountAppend(once.mutes, after.mutes[|once.mutes|], t);
    assert after.mutes[|w.mutes|].Key() == after.mutes[|w.mutes| + 1].Key();
  }

  /**
   * The rest of a fresh mute, corrected: look the triple up again after the
   * await and, if a record appeared meanwhile, only set its end time.
   */
  function ResumeChecked(w: World, t: Triple, endTime: int): World
  {
    var overwrites := w.overwrites[t.Slot() := Apply(Lookup(w.overwrites, t.Slot()), Deny)];
    match FindOne(w.mutes, t)
    case Some(i) => World(w.mutes[i := w.mutes[i].(endTime := endTime)], overwrites)
    case None => World(w.mutes + [MuteRecord(t.guildId, t.channelId, t.userId, endTime)], overwrites)
  }

  /**
   * With the lookup repeated, two overlapping mutes leave exactly one record,
   * carrying the later end time, and the store stays unique. A mute that
   * overlaps nothing behaves as the sequential `Mute` with an accepted call.
   */
  lemma OverlappingMutesChecked(w: World, t: Triple, first: int, second: int)
    requires Unique(w.mutes) && FindOne(w.mutes, t).None?
    ensures ResumeChecked(w, t, first) == Mute(w, t, first, true).after
    ensures var after := ResumeChecked(ResumeChecked(w, t, first), t, second);
      && Unique(after.mutes)
      && Count(after.mutes, t) == 1
      && EndTimeOf(after.mutes, t) == Some(second)
  {
    var once := ResumeChecked(w, t, first);
    MuteInsertsFresh(w, t, first, true);
    var n := |w.mutes|;
    assert once.mutes[n].Key() == t;
    assert FindOne(once.mutes, t) == Some(n);
    var after := ResumeChecked(once, t, second);
    assert after.mutes[n].Key() == t;
    assert FindOne(after.mutes, t) == Some(n);
    CountPresent(after.mutes, t);
  }
}
