/**
 * The `mutes` collection: an ordered list of mute records, looked up by the
 * (guild, channel, user) triple. `FindOne` is the collection's `findOne` on the
 * triple, `FindDue` its `find` on `endTime <= now`, `RemoveAt` its `remove`.
 */
module MuteStore {
  import opened Wrappers
  import opened Permissions

  /** The natural key of a mute. */
  datatype Triple = Triple(guildId: Snowflake, channelId: Snowflake, userId: Snowflake) {
    /** The overwrite that belongs to this mute. */
    function Slot(): Slot
    {
      Permissions.Slot(channelId, userId)
    }
  }

  datatype MuteRecord = MuteRecord(guildId: Snowflake, channelId: Snowflake, userId: Snowflake, endTime: int) {
    function Key(): Triple
    {
      Triple(guildId, channelId, userId)
    }
  }

  /** At most one record per triple. */
  predicate Unique(mutes: seq<MuteRecord>)
  {
    forall i, j :: 0 <= i < j < |mutes| ==> mutes[i].Key() != mutes[j].Key()
  }

  /** The position of the first record for `t`, if any. */
  function FindOne(mutes: seq<MuteRecord>, t: Triple): (r: Option<nat>)
    ensures r.None? <==> forall i :: 0 <= i < |mutes| ==> mutes[i].Key() != t
    ensures r.Some? ==> r.value < |mutes| && mutes[r.value].Key() == t
    ensures r.Some? ==> forall j :: 0 <= j < r.value ==> mutes[j].Key() != t
  {
    if mutes == [] then None
    else if mutes[0].Key() == t then Some(0)
    else match FindOne(mutes[1..], t)
      case None => None
      case Some(i) => Some(i + 1)
  }

  /** The number of records for `t`. */
  function Count(mutes: seq<MuteRecord>, t: Triple): nat
  {
    if mutes == [] then 0
    else (if mutes[0].Key() == t then 1 else 0) + Count(mutes[1..], t)
  }

  /** The end time recorded for `t`, if any. */
  function EndTimeOf(mutes: seq<MuteRecord>, t: Triple): (e: Option<int>)
    ensures e.None? <==> FindOne(mutes, t).None?
    ensures e.Some? ==> exists i :: 0 <= i < |mutes| && mutes[i].Key() == t && mutes[i].endTime == e.value
  {
    match FindOne(mutes, t)
    case None => None
    case Some(i) => Some(mutes[i].endTime)
  }

  /** `mutes` without its `i`-th record. */
  function RemoveAt(mutes: seq<MuteRecord>, i: nat): (r: seq<MuteRecord>)
    requires i < |mutes|
    ensures |r| == |mutes| - 1
    ensures forall j :: 0 <= j < i ==> r[j] == mutes[j]
    ensures forall j :: i <= j < |r| ==> r[j] == mutes[j + 1]
  {
    mutes[..i] + mutes[i + 1..]
  }

  /** The records whose end time has come, in store order. */
  function FindDue(mutes: seq<MuteRecord>, now: int): (due: seq<MuteRecord>)
    ensures |due| <= |mutes|
    ensures forall r :: r in due <==> r in mutes && r.endTime <= now
  {
    if mutes == [] then []
    else
      assert mutes == [mutes[0]] + mutes[1..];
      (if mutes[0].endTime <= now then [mutes[0]] else []) + FindDue(mutes[1..], now)
  }

  /** A triple that has a record is counted once per record; in a unique store that is once. */
  lemma {:induction false} CountPresent(mutes: seq<MuteRecord>, t: Triple)
    requires Unique(mutes)
    ensures Count(mutes, t) == (if FindOne(mutes, t).Some? then 1 else 0)
  {
    if mutes != [] {
      CountPresent(mutes[1..], t);
      if mutes[0].Key() == t {
        assert forall i :: 0 <= i < |mutes[1..]| ==> mutes[1..][i].Key() != t by {
          forall i | 0 <= i < |mutes[1..]| ensures mutes[1..][i].Key() != t {
            assert mutes[1..][i] == mutes[i + 1];
          }
        }
      }
    }
  }

  /** Appending a record adds one to its triple's count. */
  lemma {:induction false} CountAppend(mutes: seq<MuteRecord>, x: MuteRecord, t: Triple)
    ensures Count(mutes + [x], t) == Count(mutes, t) + (if x.Key() == t then 1 else 0)
  {
    if mutes != [] {
      assert (mutes + [x])[1..] == mutes[1..] + [x];
      CountAppend(mutes[1..], x, t);
    }
  }

  /** Removing a record keeps the others in order and keeps the store unique. */
  lemma RemoveAtMembers(mutes: seq<MuteRecord>, i: nat)
    requires i < |mutes|
    ensures forall r :: r in RemoveAt(mutes, i) ==> r in mutes
    ensures forall j :: 0 <= j < |mutes| && j != i ==> mutes[j] in RemoveAt(mutes, i)
    ensures Unique(mutes) ==> Unique(RemoveAt(mutes, i))
    ensures Unique(mutes) ==> FindOne(RemoveAt(mutes, i), mutes[i].Key()).None?
  {
    var r := RemoveAt(mutes, i);
    forall x | x in r ensures x in mutes {
      var k :| 0 <= k < |r| && r[k] == x;
      if k < i { assert r[k] == mutes[k]; } else { assert r[k] == mutes[k + 1]; }
    }
    forall j | 0 <= j < |mutes| && j != i ensures mutes[j] in r {
      if j < i { assert r[j] == mutes[j]; } else { assert r[j - 1] == mutes[j]; }
    }
  }
}
