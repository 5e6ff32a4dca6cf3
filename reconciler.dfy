/**
 * `muteChannel` and `unmuteChannel` as transitions of a world made of the mute
 * store and the gateway's live overwrites. Each transition says what the world
 * becomes, what the caller is told, and whether the store is saved. Gateway
 * outcomes are inputs: `gatewayOk` is the answer of the one gateway call the
 * transition makes, if it makes one.
 */
module Reconciler {
  import opened Wrappers
  import opened Permissions
  import opened MuteStore

  datatype World = World(mutes: seq<MuteRecord>, overwrites: map<Slot, Overwrite>)

  /** The `{result}` or `{error}` object the functions return. */
  datatype Outcome = Result(message: string) | Error(message: string)

  datatype Step = Step(after: World, outcome: Outcome, saved: bool)

  const MUTE_UPDATED: string := "channel mute successfully updated"
  const MUTED_PREFIX: string := "channel successfully muted, id to get back is "
  const MUTE_FAILED: string := "an error occured while muting the channel - no mute has been applied"
  const NO_RECORD: string := "no current mute recorded to disable"
  const NO_OVERWRITE: string := "no current mute overwrite found to disable"
  const UNMUTED: string := "mute successfully removed"
  const UNMUTED_PERMISSION_REMAINS: string := "mute successfully removed, user permission remains"
  const UNMUTE_FAILED: string := "mute could not be removed"

  /**
   * `muteChannel`: an existing record only gets the new end time (no gateway
   * call, no save); otherwise reading is denied on the channel and, if the
   * gateway accepts, a record is appended and the store saved.
   */
  function Mute(w: World, t: Triple, endTime: int, gatewayOk: bool): (s: Step)
    ensures Unique(w.mutes) ==> Unique(s.after.mutes)
  {
    match FindOne(w.mutes, t)
    case Some(i) =>
      Step(World(w.mutes[i := w.mutes[i].(endTime := endTime)], w.overwrites), Result(MUTE_UPDATED), false)
    case None =>
      if gatewayOk then
        var record := MuteRecord(t.guildId, t.channelId, t.userId, endTime);
        var overwrite := Apply(Lookup(w.overwrites, t.Slot()), Deny);
        Step(World(w.mutes + [record], w.overwrites[t.Slot() := overwrite]), Result(MUTED_PREFIX + t.channelId), true)
      else
        Step(w, Error(MUTE_FAILED), false)
  }

  /**
   * `unmuteChannel`: without a record nothing happens; without an overwrite the
   * record is dropped anyway; a canonical overwrite is deleted, any other has
   * only READ_MESSAGES reset; a failed gateway call keeps everything.
   */
  function Unmute(w: World, t: Triple, gatewayOk: bool): (s: Step)
    ensures Unique(w.mutes) ==> Unique(s.after.mutes)
  {
    match FindOne(w.mutes, t)
    case None => Step(w, Error(NO_RECORD), false)
    case Some(i) =>
      RemoveAtMembers(w.mutes, i);
      var slot := t.Slot();
      if slot !in w.overwrites then
        Step(World(RemoveAt(w.mutes, i), w.overwrites), Error(NO_OVERWRITE), true)
      else if !gatewayOk then
        Step(w, Error(UNMUTE_FAILED), false)
      else if IsCanonicalMute(w.overwrites[slot]) then
        Step(World(RemoveAt(w.mutes, i), w.overwrites - {slot}), Result(UNMUTED), true)
      else
        var cleared := Apply(Some(w.overwrites[slot]), Neutral);
        Step(World(RemoveAt(w.mutes, i), w.overwrites[slot := cleared]), Result(UNMUTED_PERMISSION_REMAINS), true)
  }

  /**
   * What an unmute can do to the rest of the world: it adds no record, keeps
   * every record of another triple, touches no other overwrite, and, when the
   * gateway accepts or there is no overwrite to lift, leaves no record for the
   * triple.
   */
  lemma UnmuteFrame(w: World, t: Triple, gatewayOk: bool)
    requires Unique(w.mutes)
    ensures var s := Unmute(w, t, gatewayOk);
      && (forall r :: r in s.after.mutes ==> r in w.mutes)
      && (forall r :: r in w.mutes && r.Key() != t ==> r in s.after.mutes)
      && ((gatewayOk || t.Slot() !in w.overwrites) ==> FindOne(s.after.mutes, t).None?)
      && (forall slot :: slot != t.Slot() ==> Lookup(s.after.overwrites, slot) == Lookup(w.overwrites, slot))
  {
    match FindOne(w.mutes, t)
    case None =>
    case Some(i) =>
      RemoveAtMembers(w.mutes, i);
      forall r | r in w.mutes && r.Key() != t ensures r in RemoveAt(w.mutes, i) {
        var j :| 0 <= j < |w.mutes| && w.mutes[j] == r;
      }
  }

  /** An unmute saves exactly when it removes one record; otherwise the store is untouched. */
  lemma UnmuteSaves(w: World, t: Triple, gatewayOk: bool)
    ensures var s := Unmute(w, t, gatewayOk);
      if s.saved then |s.after.mutes| == |w.mutes| - 1 else s.after.mutes == w.mutes
  {
  }

  /**
   * Muting a triple that already has a record changes that record's end time
   * and nothing else: same number of records, still one for the triple, every
   * other record and every overwrite as before, no gateway call and no save.
   */
  lemma MuteUpdatesExisting(w: World, t: Triple, endTime: int, gatewayOk: bool)
    requires Unique(w.mutes) && FindOne(w.mutes, t).Some?
    ensures var s := Mute(w, t, endTime, gatewayOk);
      && s.outcome == Result(MUTE_UPDATED) && !s.saved
      && s.after.overwrites == w.overwrites
      && |s.after.mutes| == |w.mutes|
      && Count(s.after.mutes, t) == 1
      && EndTimeOf(s.after.mutes, t) == Some(endTime)
      && (forall j :: 0 <= j < |w.mutes| && w.mutes[j].Key() != t ==> s.after.mutes[j] == w.mutes[j])
  {
    var s := Mute(w, t, endTime, gatewayOk);
    var i := FindOne(w.mutes, t).value;
    assert s.after.mutes[i].Key() == t;
    assert FindOne(s.after.mutes, t) == Some(i);
    CountPresent(s.after.mutes, t);
  }

  /**
   * Muting a triple without a record: when the gateway accepts the read-deny
   * overwrite, exactly one record for the triple exists afterwards, carrying
   * the new end time, after all the old records; the user's overwrite denies
   * and does not allow reading, keeps its other bits, and is the canonical mute
   * shape if there was none before. When the gateway refuses, nothing changes.
   */
  lemma MuteInsertsFresh(w: World, t: Triple, endTime: int, gatewayOk: bool)
    requires Unique(w.mutes) && FindOne(w.mutes, t).None?
    ensures var s := Mute(w, t, endTime, gatewayOk);
      if gatewayOk then
        && s.outcome == Result(MUTED_PREFIX + t.channelId) && s.saved
        && s.after.mutes[..|w.mutes|] == w.mutes && |s.after.mutes| == |w.mutes| + 1
        && Count(s.after.mutes, t) == 1
        && EndTimeOf(s.after.mutes, t) == Some(endTime)
        && t.Slot() in s.after.overwrites
        && READ_MESSAGES in s.after.overwrites[t.Slot()].denied
        && READ_MESSAGES !in s.after.overwrites[t.Slot()].allowed
        && s.after.overwrites[t.Slot()].allowed - {READ_MESSAGES} == Base(Lookup(w.overwrites, t.Slot())).allowed - {READ_MESSAGES}
        && s.after.overwrites[t.Slot()].denied - {READ_MESSAGES} == Base(Lookup(w.overwrites, t.Slot())).denied - {READ_MESSAGES}
        && (t.Slot() !in w.overwrites ==> IsCanonicalMute(s.after.overwrites[t.Slot()]))
        && s.after.overwrites - {t.Slot()} == w.overwrites - {t.Slot()}
      else
        s == Step(w, Error(MUTE_FAILED), false)
  {
    var s := Mute(w, t, endTime, gatewayOk);
    if gatewayOk {
      var n := |w.mutes|;
      assert s.after.mutes[n].Key() == t;
      assert FindOne(s.after.mutes, t) == Some(n);
      CountPresent(s.after.mutes, t);
    }
  }

  /** Unmuting a triple without a record reports it and changes nothing. */
  lemma UnmuteWithoutRecord(w: World, t: Triple, gatewayOk: bool)
    requires FindOne(w.mutes, t).None?
    ensures Unmute(w, t, gatewayOk) == Step(w, Error(NO_RECORD), false)
  {
  }

  /**
   * Unmuting a recorded triple whose overwrite is gone reports the missing
   * overwrite and still drops the record (and only it), and saves.
   */
  lemma UnmuteWithoutOverwrite(w: World, t: Triple, gatewayOk: bool)
    requires Unique(w.mutes) && FindOne(w.mutes, t).Some? && t.Slot() !in w.overwrites
    ensures var s := Unmute(w, t, gatewayOk);
      && s.outcome == Error(NO_OVERWRITE) && s.saved
      && s.after.overwrites == w.overwrites
      && |s.after.mutes| == |w.mutes| - 1
      && FindOne(s.after.mutes, t).None?
  {
    UnmuteFrame(w, t, gatewayOk);
  }

  /**
   * Unmuting a recorded triple whose overwrite exists, with the gateway
   * accepting: the record (and only it) is gone and the store saved; a
   * canonical overwrite is deleted outright; any other keeps all its bits but
   * READ_MESSAGES, which it neither allows nor denies any more, and the caller
   * is told that the user's permission entry remains.
   */
  lemma UnmuteLiftsOverwrite(w: World, t: Triple)
    requires Unique(w.mutes) && FindOne(w.mutes, t).Some? && t.Slot() in w.overwrites
    ensures var s := Unmute(w, t, true);
      var o := w.overwrites[t.Slot()];
      && s.saved
      && |s.after.mutes| == |w.mutes| - 1
      && FindOne(s.after.mutes, t).None?
      && s.after.overwrites - {t.Slot()} == w.overwrites - {t.Slot()}
      && (IsCanonicalMute(o) ==> s.outcome == Result(UNMUTED) && t.Slot() !in s.after.overwrites)
      && (!IsCanonicalMute(o) ==>
            && s.outcome == Result(UNMUTED_PERMISSION_REMAINS)
            && t.Slot() in s.after.overwrites
            && READ_MESSAGES !in s.after.overwrites[t.Slot()].allowed
            && READ_MESSAGES !in s.after.overwrites[t.Slot()].denied
            && s.after.overwrites[t.Slot()].allowed - {READ_MESSAGES} == o.allowed - {READ_MESSAGES}
            && s.after.overwrites[t.Slot()].denied - {READ_MESSAGES} == o.denied - {READ_MESSAGES})
  {
    UnmuteFrame(w, t, true);
  }

  /** When the gateway refuses to lift an existing overwrite, the record is kept and nothing changes. */
  lemma UnmuteGatewayFailure(w: World, t: Triple)
    requires FindOne(w.mutes, t).Some? && t.Slot() in w.overwrites
    ensures Unmute(w, t, false) == Step(w, Error(UNMUTE_FAILED), false)
  {
  }

  /**
   * Muting twice never stacks: after a successful mute, a second mute of the
   * same triple leaves exactly one record, with the second end time, and does
   * not touch the overwrites again.
   */
  lemma MuteTwice(w: World, t: Triple, first: int, second: int, ok1: bool, ok2: bool)
    requires Unique(w.mutes)
    requires Mute(w, t, first, ok1).outcome.Result?
    ensures var once := Mute(w, t, first, ok1);
      var twice := Mute(once.after, t, second, ok2);
      && Count(twice.after.mutes, t) == 1
      && EndTimeOf(twice.after.mutes, t) == Some(second)
      && |twice.after.mutes| == |once.after.mutes|
      && twice.after.overwrites == once.after.overwrites
  {
    var once := Mute(w, t, first, ok1);
    if FindOne(w.mutes, t).Some? {
      MuteUpdatesExisting(w, t, first, ok1);
    } else {
      MuteInsertsFresh(w, t, first, ok1);
    }
    MuteUpdatesExisting(once.after, t, second, ok2);
  }

  /**
   * What a mute followed by an unmute leaves of the user's overwrite: its other
   * bits, with READ_MESSAGES neither allowed nor denied, or no overwrite at
   * all when nothing else is left.
   */
  function ReadCleared(o: Option<Overwrite>): (r: Option<Overwrite>)
    ensures r.Some? ==> o.Some? && READ_MESSAGES !in r.value.allowed && READ_MESSAGES !in r.value.denied
    ensures r.Some? ==> r.value.allowed == o.value.allowed - {READ_MESSAGES} && r.value.denied == o.value.denied - {READ_MESSAGES}
    ensures r.None? <==> o.None? || (o.value.allowed <= {READ_MESSAGES} && o.value.denied <= {READ_MESSAGES})
  {
    match o
    case None => None
    case Some(x) =>
      var c := Overwrite(x.allowed - {READ_MESSAGES}, x.denied - {READ_MESSAGES});
      if c.allowed == {} && c.denied == {} then None else Some(c)
  }

  /**
   * Round trip: muting an unmuted triple and then unmuting it, with the gateway
   * accepting both calls, restores the store exactly, leaves every other
   * overwrite as it was, and leaves the user's own overwrite with READ_MESSAGES
   * cleared (no overwrite at all if the user had none before).
   */
  lemma MuteThenUnmute(w: World, t: Triple, endTime: int)
    requires Unique(w.mutes) && FindOne(w.mutes, t).None?
    ensures var u := Unmute(Mute(w, t, endTime, true).after, t, true);
      && u.outcome.Result?
      && u.after.mutes == w.mutes
      && u.after.overwrites - {t.Slot()} == w.overwrites - {t.Slot()}
      && Lookup(u.after.overwrites, t.Slot()) == ReadCleared(Lookup(w.overwrites, t.Slot()))
  {
    var m := Mute(w, t, endTime, true);
    var n := |w.mutes|;
    assert m.after.mutes[n].Key() == t;
    assert FindOne(m.after.mutes, t) == Some(n);
    assert RemoveAt(m.after.mutes, n) == w.mutes;
  }
}
