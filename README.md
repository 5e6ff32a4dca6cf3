# shhhhhh-discord: the mute lifecycle, in Dafny

The bot lets a user take away their own read access to a Discord channel for a
while ("mute") and gives it back when the time is up. This project models the
part of `index.js` that carries state:

- the **mute store**: the `mutes` collection of records `{guildId, channelId,
  userId, endTime}`, looked up by the (guild, channel, user) triple;
- the **permission reconciler**: `muteChannel` and `unmuteChannel`. They add or
  lift a READ_MESSAGES deny overwrite for the user on the channel and keep the
  store in step. Each gateway call (`overwritePermissions`, an overwrite's
  `delete`) may fail;
- the **expiry sweep**: `cleanupMutes` unmutes every record whose end time has come;
- the **duration resolver**: the fallback chain of the `mute` command. It tries
  the phrase, then the phrase with " from now" appended, then one hour. It
  rejects anything less than a minute away;
- the two **mention helpers**, `getUserFromMention` and `getChannelFromMention`.

Modules, leaves first:

- `Wrappers`: `Option`.
- `Mentions`: character stripping and the two helpers.
- `Duration`: `Interpret` and `Resolve`. The natural-language parser is a
  parameter `(phrase, now) -> Option<instant>`. Times are epoch milliseconds.
- `Permissions`: overwrites and the `Gateway` class holding the live overwrites
  per (channel, user). A bitfield is the set of positions of its one-bits, so
  READ_MESSAGES (1024) is bit 10. The canonical mute shape "allowed 0, denied
  1024" is `allowed == {}` and `denied == {10}`.
- `MuteStore`: records, `FindOne`, `FindDue`, `RemoveAt`, and uniqueness per triple.
- `Reconciler`: `Mute` and `Unmute` as pure transitions of a `World` (the store
  plus the overwrites). Each transition yields the outcome and whether the store
  is saved. The lemmas about each branch are here too.
- `Interleaving`: a fresh mute split at its await, as written and with the
  lookup repeated, and two overlapping mutes of one triple.
- `Sweeper`: `Sweep`, the unmutes of a list of due records applied in order,
  with its lemmas.
- `Bot`: class `MuteBot`. Its field `mutes` is updated in place and it holds a
  `Gateway`. Its methods `MuteChannel`, `UnmuteChannel`, `CleanupMutes` and
  `MuteCommand` are proved to perform the transitions above. A ghost counter
  `saves` counts `saveDatabase` calls.

Where the code and its design description differ, the model follows the code:

- Extending an existing mute (index.js:101-104) only changes `endTime` in
  memory. It neither saves the store nor re-applies the overwrite.
- When the first parse yields exactly the message time, the code does not retry
  with " from now". It goes straight to the one-hour default (index.js:76-78).

## Model

| member | source | states |
|---|---|---|
| `Mentions.Strip` | index.js:176-182 | the result holds no character of the class; every other character keeps its number of occurrences; never longer than the input |
| `Mentions.StripAppend` | index.js:176-182 | stripping distributes over concatenation, so the kept characters stay in input order |
| `Mentions.StripIdentity` | index.js:176-182 | a text is unchanged by stripping exactly when it holds no character of the class |
| `Mentions.StripIdempotent` | index.js:176-182 | stripping twice equals stripping once |
| `Mentions.GetUserFromMention` | index.js:176-178 | the result holds none of `<@!>`; every other character keeps its count (order: `MentionAppend`) |
| `Mentions.GetChannelFromMention` | index.js:180-182 | the result holds none of `<#>`; every other character keeps its count (order: `MentionAppend`) |
| `Mentions.MentionAppend` | index.js:176-182 | both helpers distribute over concatenation, so the kept characters stay in mention order |
| `Mentions.UserMentionRoundTrip` | index.js:176-178 | `<@id>` and `<@!id>` both give back `id` |
| `Mentions.ChannelMentionRoundTrip` | index.js:180-182 | `<#id>` gives back `id` |
| `Duration.Interpret` | index.js:76-78 | parse first; only when that yields nothing, parse with " from now"; no answer, or an answer equal to `now`, gives `now + 1h`; the result is never `now` |
| `Duration.Resolve` | index.js:76-82 | accepted exactly when the interpreted instant is at least `now + 1 min`, and then equals it; otherwise rejected with the minimum-duration message |
| `Duration.DefaultIsOneHour` | index.js:76-78 | a phrase the parser understands in neither form gives an expiry of exactly `now + 1h` |
| `Duration.RejectedOnlyWhenParsedTooSoon` | index.js:79-82 | a rejected phrase is one whose parsed instant lies before `now + 1 min` |
| `Permissions.Apply` | index.js:106 | an `overwritePermissions(user, {READ_MESSAGES: v})` call puts READ_MESSAGES on the allowed side, the denied side or neither, as `v` says; every other bit is kept; a missing overwrite counts as empty |
| `Permissions.DenyReadIsCanonical` | index.js:136 | denying reading to a user without an overwrite gives exactly allowed 0, denied 1024 |
| `Permissions.Gateway.OverwritePermissions` | index.js:106 | on success the slot holds the updated overwrite; on failure nothing changes |
| `Permissions.Gateway.DeleteOverwrite` | index.js:138 | on success the slot is gone; on failure nothing changes |
| `MuteStore.FindOne` | index.js:96-100 | none exactly when no record has the triple; otherwise the position of the first record that has it |
| `MuteStore.FindDue` | index.js:163 | holds exactly the records with `endTime <= now` |
| `MuteStore.RemoveAt` | index.js:150 | one record fewer; the records before and after the removed one keep their order |
| `MuteStore.CountPresent` | index.js:96-113 | in a store without duplicate triples, a triple has one record if `FindOne` finds it, else none |
| `MuteStore.CountAppend` | index.js:108-113 | appending a record adds one to its own triple's count and nothing to any other |
| `MuteStore.RemoveAtMembers` | index.js:150 | removal adds nothing, keeps every other record and keeps triples unique; the removed triple is then absent |
| `Reconciler.Mute` | index.js:94-120 | preserves "at most one record per triple" |
| `Reconciler.Unmute` | index.js:122-153 | preserves "at most one record per triple" |
| `Reconciler.UnmuteFrame` | index.js:122-153 | unmute adds no record and keeps every record of another triple. It changes no other user's or channel's overwrite. It leaves no record for the triple when the gateway accepts or there is no overwrite |
| `Reconciler.UnmuteSaves` | index.js:129-152 | an unmute saves exactly when it removes one record; otherwise the store is untouched |
| `Reconciler.MuteUpdatesExisting` | index.js:96-104 | with a record present, only that record's end time changes. The record count is unchanged, the triple still has exactly one record, the overwrites are unchanged and the store is not saved |
| `Reconciler.MuteInsertsFresh` | index.js:105-119 | with no record and an accepted gateway call: exactly one record for the triple, with the new end time, after all the old ones. Reading is denied and not allowed, other bits are kept, and the shape is canonical when there was no prior overwrite. The store is saved. With a refused call: error, nothing changes |
| `Reconciler.UnmuteWithoutRecord` | index.js:124-129 | error "no current mute recorded to disable"; store and overwrites unchanged; no save |
| `Reconciler.UnmuteWithoutOverwrite` | index.js:130-133 | error "no current mute overwrite found to disable", yet the record is removed and the store saved; overwrites unchanged |
| `Reconciler.UnmuteLiftsOverwrite` | index.js:135-152 | gateway accepts: record removed and store saved. A canonical overwrite is deleted ("mute successfully removed"). Any other keeps every bit but READ_MESSAGES, which it neither allows nor denies ("user permission remains") |
| `Reconciler.UnmuteGatewayFailure` | index.js:145-148 | when the delete or update call fails: error "mute could not be removed", the record is kept, nothing changes |
| `Reconciler.MuteTwice` | index.js:94-120 | after a successful mute, muting again leaves exactly one record, with the second end time, and does not touch the overwrites |
| `Reconciler.ReadCleared` | index.js:136-143 | the user's overwrite with READ_MESSAGES cleared, or none when no other bit remains |
| `Reconciler.MuteThenUnmute` | index.js:94-153 | mute of an unmuted triple then unmute, both accepted: the store is exactly as before and other overwrites are unchanged. The user's overwrite is the original with READ_MESSAGES cleared, so none if there was none |
| `Sweeper.Sweep` | index.js:164-173 | preserves "at most one record per triple" |
| `Sweeper.SweepFrame` | index.js:164-173 | a sweep adds no record and keeps every record whose triple is not in the due list. It lifts every triple whose gateway call is accepted. It changes no overwrite outside the unmuted triples |
| `Sweeper.SweepKeepsRefused` | index.js:145-150 | a due record whose gateway call is refused while its overwrite exists stays in the store with its overwrite, so the next sweep retries it (when no other due triple shares its channel and user) |
| `Sweeper.SweepLiftsExactlyDue` | index.js:160-174 | a sweep at `now` keeps every record not yet due. It lifts every due triple whose gateway call is accepted. It keeps a due record whose call is refused while its overwrite exists. When all calls are accepted, exactly the not-yet-due records remain |
| `Bot.MuteBot.MuteChannel` | index.js:94-120 | the store and overwrites become `Mute`'s world; the result is `Mute`'s outcome; one save exactly when a record is inserted; uniqueness kept |
| `Bot.MuteBot.UnmuteChannel` | index.js:122-153 | the store and overwrites become `Unmute`'s world; the result is `Unmute`'s outcome; one save exactly when the record is removed; uniqueness kept |
| `Bot.MuteBot.CleanupMutes` | index.js:160-174 | the store and overwrites become `Sweep` of the records due at `now`, unmuted in store order; one save per removed record and no other |
| `Interleaving.OverlappingMutesDuplicate` | index.js:94-113 | two mutes of an unmuted triple that overlap at their await both insert: two records for the triple, the store no longer unique |
| `Interleaving.OverlappingMutesChecked` | index.js:94-113 | with the lookup repeated after the await, two overlapping mutes leave one record with the later end time; without overlap it behaves as `Mute` |
| `Bot.MuteBot.MuteCommand` | index.js:72-89 | a duration rejected by `Resolve` returns the minimum-duration error and touches neither store nor gateway; otherwise the command mutes with the resolved expiry |

## Left out

- Discord client, login, the `ready` and reaction events, and the message-command routing (index.js:6, 24, 36-70). These are foreign objects and network I/O. `MuteCommand` starts after the channel is found.
- Direct-message replies and deletion of the command message (index.js:155-158). The model returns the outcome strings instead.
- LokiJS loading and saving and the `init` flag (index.js:184-204). `saveDatabase` is a ghost counter, and a failed save is not modelled. The constructor takes the loaded collection.
- Cron scheduling (index.js:31-32) and winston logging. These are an external timer and log sinks; `now` is a parameter of `CleanupMutes`.
- Chrono's natural-language parsing. It is a parameter. The fixed phrases "1 hour from now" and "1 minutes from now" are taken as exactly 3600000 and 60000 ms after the message time.
- The concurrency of `forEach(async ...)` in `cleanupMutes`. The sweep is a sequential loop, one gateway outcome per triple.
- Handlers interleaving at their `await`s (index.js:40-52, 54-92, 106, 138, 142) are not modelled, apart from the two overlapping mutes of `Interleaving`. `Reconciler.Mute`, `Sweeper.Sweep` and `MuteBot.Valid()` keep "at most one record per triple" only for calls that run one at a time; the source does not keep it under overlap (see Findings).
- `bot.guilds.get`, `bot.channels.get` and `bot.users.get` may return undefined (index.js:168-170). The sweep unmutes by the record's ids.
- discord.js is not modelled; its (v11) `overwritePermissions` merge rule is taken as: `false` sets deny and clears allow, `null` clears both, other bits are kept, and a missing overwrite starts empty.
- Overwrites edited by moderators between calls are not modelled as events. The initial overwrites may be arbitrary, which covers any drift that happens before a call.
- A mention token that is missing (undefined in JavaScript) is not modelled. The helpers take a string.
- `Bot.MuteBot.MuteCommand`: a too-short duration returns `Error` with the message text. The source instead sends that text by direct message and returns.

## Findings

| source | as written | input that shows it | evidently intended | confidence | as-written member | corrected member |
|---|---|---|---|---|---|---|
| index.js:94-113 | `muteChannel` looks the triple up, awaits `overwritePermissions`, then inserts without looking again | two mutes of one unmuted triple (a 🔇 reaction and a `mute` command) whose gateway calls are both pending | at most one record per triple; a mute that finds a record appeared meanwhile only sets its end time | not executed; medium | `Interleaving.OverlappingMutesDuplicate` | `Interleaving.OverlappingMutesChecked` |
