/**
 * The bot's mute state as index.js holds it: the `mutes` collection, updated
 * in place, and the gateway whose channel overwrites it edits. Each method is
 * proved to perform the transition that `Reconciler` or `Sweeper` specifies.
 * `saveDatabase` is counted by a ghost counter.
 */
module Bot {
  import opened Wrappers
  import opened Permissions
  import opened MuteStore
  import opened Reconciler
  import opened Sweeper
  import opened Duration

  class MuteBot {
    var mutes: seq<MuteRecord>
    const gateway: Gateway
    ghost var saves: nat

    ghost predicate Valid()
      reads this
    {
      Unique(mutes)
    }

    /** The store and the live overwrites, as one value. */
    function State(): World
      reads this, gateway
    {
      World(mutes, gateway.overwrites)
    }

    /** A bot over a loaded collection. */
    constructor (gateway: Gateway, loaded: seq<MuteRecord>)
      requires Unique(loaded)
      ensures Valid() && this.gateway == gateway && mutes == loaded && saves == 0
    {
      this.gateway := gateway;
      mutes := loaded;
      saves := 0;
    }

    /** `muteChannel(guild, channel, user, endTime)`. */
    method MuteChannel(guildId: Snowflake, channelId: Snowflake, userId: Snowflake, endTime: int, gatewayOk: bool)
      returns (r: Outcome)
      requires Valid()
      modifies this, gateway
      ensures Valid()
      ensures var s := Mute(old(State()), Triple(guildId, channelId, userId), endTime, gatewayOk);
        State() == s.after && r == s.outcome && saves == old(saves) + (if s.saved then 1 else 0)
    {
      var t := Triple(guildId, channelId, userId);
      var oldMute := FindOne(mutes, t);
      if oldMute.Some? {
        var i := oldMute.value;
        mutes := mutes[i := mutes[i].(endTime := endTime)];
        return Result(MUTE_UPDATED);
      }
      var ok := gateway.OverwritePermissions(channelId, userId, Deny, gatewayOk);
      if !ok {
        return Error(MUTE_FAILED);
      }
      mutes := mutes + [MuteRecord(guildId, channelId, userId, endTime)];
      saves := saves + 1;
      r := Result(MUTED_PREFIX + channelId);
    }

    /** `unmuteChannel(guild, channel, user)`. */
    method UnmuteChannel(guildId: Snowflake, channelId: Snowflake, userId: Snowflake, gatewayOk: bool)
      returns (r: Outcome)
      requires Valid()
      modifies this, gateway
      ensures Valid()
      ensures var s := Unmute(old(State()), Triple(guildId, channelId, userId), gatewayOk);
        State() == s.after && r == s.outcome && saves == old(saves) + (if s.saved then 1 else 0)
    {
      var t := Triple(guildId, channelId, userId);
      var oldMute := FindOne(mutes, t);
      if oldMute.None? {
        return Error(NO_RECORD);
      }
      var muteOverwrite := gateway.OverwriteFor(channelId, userId);
      if muteOverwrite.None? {
        r := Error(NO_OVERWRITE);
      } else {
        var ok;
        if IsCanonicalMute(muteOverwrite.value) {
          ok := gateway.DeleteOverwrite(channelId, userId, gatewayOk);
          r := Result(UNMUTED);
        } else {
          ok := gateway.OverwritePermissions(channelId, userId, Neutral, gatewayOk);
          r := Result(UNMUTED_PERMISSION_REMAINS);
        }
        if !ok {
          return Error(UNMUTE_FAILED);
        }
      }
      RemoveAtMembers(mutes, oldMute.value);
      mutes := RemoveAt(mutes, oldMute.value);
      saves := saves + 1;
    }

    /**
     * `cleanupMutes()`: unmutes every record due at `now`, one after the other;
     * a failed unmute does not stop the others. Each removed record costs one
     * save, and nothing else saves.
     */
    method CleanupMutes(now: int, gatewayOk: Triple -> bool)
      requires Valid()
      modifies this, gateway
      ensures Valid()
      ensures State() == Sweep(old(State()), FindDue(old(mutes), now), gatewayOk)
      ensures |mutes| <= |old(mutes)| && saves == old(saves) + (|old(mutes)| - |mutes|)
    {
      var expired := FindDue(mutes, now);
      ghost var start := State();
      var i := 0;
      while i < |expired|
        invariant 0 <= i <= |expired|
        invariant Valid()
        invariant State() == Sweep(start, expired[..i], gatewayOk)
        invariant |mutes| <= |start.mutes| && saves == old(saves) + (|start.mutes| - |mutes|)
      {
        var muteObj := expired[i];
        ghost var before := State();
        var _ := UnmuteChannel(muteObj.guildId, muteObj.channelId, muteObj.userId, gatewayOk(muteObj.Key()));
        UnmuteSaves(before, muteObj.Key(), gatewayOk(muteObj.Key()));
        SweepStep(start, expired, i, gatewayOk);
        i := i + 1;
      }
      assert expired[..|expired|] == expired;
    }

    /**
     * The `mute` command after its channel is found: resolve the duration
     * phrase against the message's time and mute only if the expiry is at
     * least a minute away; a rejected duration touches neither the store nor
     * the gateway.
     */
    method MuteCommand(guildId: Snowflake, channelId: Snowflake, userId: Snowflake,
                       phrase: string, now: int, parse: Parser, gatewayOk: bool)
      returns (r: Outcome)
      requires Valid()
      modifies this, gateway
      ensures Valid()
      ensures match Resolve(phrase, now, parse)
        case Rejected(reason) =>
          r == Error(reason) && State() == old(State()) && saves == old(saves)
        case Expiry(endTime) =>
          var s := Mute(old(State()), Triple(guildId, channelId, userId), endTime, gatewayOk);
          State() == s.after && r == s.outcome && saves == old(saves) + (if s.saved then 1 else 0)
    {
      match Resolve(phrase, now, parse)
      case Rejected(reason) =>
        r := Error(reason);
      case Expiry(endTime) =>
        r := MuteChannel(guildId, channelId, userId, endTime, gatewayOk);
    }
  }
}
