/**
 * Channel permission overwrites as the Discord gateway keeps them: per channel,
 * per user, a pair of bitfields (explicitly allowed, explicitly denied). The
 * gateway's two calls that the bot awaits, `overwritePermissions` and an
 * overwrite's `delete`, are methods whose success is an input: a failed call
 * changes nothing.
 */
module Permissions {
  import opened Wrappers

  /** Discord ids are decimal strings. */
  type Snowflake = string

  /** A permission is a bit position of Discord's permission bitfield. */
  type Permission = nat

  /** A bitfield is the set of positions of its one-bits. */
  type Bitfield = set<Permission>

  /** READ_MESSAGES (view channel) is bit 10, the value 1024. */
  const READ_MESSAGES: Permission := 10

  datatype Overwrite = Overwrite(allowed: Bitfield, denied: Bitfield)

  /** Where an overwrite lives: one user on one channel. */
  datatype Slot = Slot(channelId: Snowflake, userId: Snowflake)

  /** The value given for a capability in an `overwritePermissions` call: `true`, `false` or `null`. */
  datatype Setting = Allow | Deny | Neutral

  function Lookup(overwrites: map<Slot, Overwrite>, slot: Slot): Option<Overwrite>
  {
    if slot in overwrites then Some(overwrites[slot]) else None
  }

  /** The overwrite a call starts from: the existing one, or one that allows and denies nothing. */
  function Base(prev: Option<Overwrite>): Overwrite
  {
    if prev.Some? then prev.value else Overwrite({}, {})
  }

  /**
   * The overwrite that `overwritePermissions(user, {READ_MESSAGES: setting})`
   * leaves: the previous overwrite (or an empty one) with READ_MESSAGES moved
   * to the allowed side, the denied side, or neither; all other bits kept.
   */
  function Apply(prev: Option<Overwrite>, setting: Setting): (o: Overwrite)
    ensures o.allowed - {READ_MESSAGES} == Base(prev).allowed - {READ_MESSAGES}
    ensures o.denied - {READ_MESSAGES} == Base(prev).denied - {READ_MESSAGES}
    ensures READ_MESSAGES in o.allowed <==> setting == Allow
    ensures READ_MESSAGES in o.denied <==> setting == Deny
  {
    var base := Base(prev);
    match setting
    case Allow => Overwrite(base.allowed + {READ_MESSAGES}, base.denied - {READ_MESSAGES})
    case Deny => Overwrite(base.allowed - {READ_MESSAGES}, base.denied + {READ_MESSAGES})
    case Neutral => Overwrite(base.allowed - {READ_MESSAGES}, base.denied - {READ_MESSAGES})
  }

  /**
   * The shape a mute leaves on a user with no prior overwrite: allowed bitfield
   * 0 and denied bitfield 1024, i.e. nothing allowed and only reading denied.
   */
  predicate IsCanonicalMute(o: Overwrite)
  {
    o.allowed == {} && o.denied == {READ_MESSAGES}
  }

  /** Denying reading to a user without an overwrite produces exactly the canonical mute shape. */
  lemma DenyReadIsCanonical()
    ensures IsCanonicalMute(Apply(None, Deny))
  {
  }

  /** The live overwrites of the gateway. */
  class Gateway {
    var overwrites: map<Slot, Overwrite>

    constructor (initial: map<Slot, Overwrite>)
      ensures overwrites == initial
    {
      overwrites := initial;
    }

    /** `channel.permissionOverwrites.get(user.id)`. */
    function OverwriteFor(channelId: Snowflake, userId: Snowflake): Option<Overwrite>
      reads this
    {
      Lookup(overwrites, Slot(channelId, userId))
    }

    /** `channel.overwritePermissions(user, {READ_MESSAGES: setting})`; `succeeds` is the gateway's answer. */
    method OverwritePermissions(channelId: Snowflake, userId: Snowflake, setting: Setting, succeeds: bool)
      returns (ok: bool)
      modifies this
      ensures ok == succeeds
      ensures overwrites == if succeeds
        then old(overwrites)[Slot(channelId, userId) := Apply(old(OverwriteFor(channelId, userId)), setting)]
        else old(overwrites)
    {
      ok := succeeds;
      if succeeds {
        var slot := Slot(channelId, userId);
        overwrites := overwrites[slot := Apply(Lookup(overwrites, slot), setting)];
      }
    }

    /** `muteOverwrite.delete()`; `succeeds` is the gateway's answer. */
    method DeleteOverwrite(channelId: Snowflake, userId: Snowflake, succeeds: bool) returns (ok: bool)
      modifies this
      ensures ok == succeeds
      ensures overwrites == if succeeds then old(overwrites) - {Slot(channelId, userId)} else old(overwrites)
    {
      ok := succeeds;
      if succeeds {
        overwrites := overwrites - {Slot(channelId, userId)};
      }
    }
  }
}
