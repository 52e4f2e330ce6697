# BareRTC core, modelled in Dafny

BareRTC is a WebRTC chat room: a Go server relays chat messages, presence
and webcam signalling over websockets, and a browser front end (plus a
Go chatbot client) opens peer-to-peer camera connections between users. This
project models the decision logic at the centre of that system and proves
what it promises.

- `webrtc_client.dfy` — the browser's per-peer webcam bookkeeping
  (`src/lib/WebRTC.js`): a `WebRtcState` class holding the peer-connection,
  stream, mute, boot, expressly-closed, debounce and watch maps, with
  `OpenVideo`, `CloseVideo` in its three roles, `ExpresslyCloseVideo`, the
  `CleanupPeerConnections` sweep, booting with its pre-emptive rate limiter,
  the `ontrack` gate and the signalling guards; the pure viewing policy
  `IsVideoNotAllowed`, the offer-video condition, the video-flag builder and
  the video size stepper.
- `legacy_client.dfy` — the older front end (`web/static/js/BareRTC.js`):
  reaction toggling, per-channel history with scrollback and unread counts,
  takebacks, its flag builder and camera checks, `normalizeUsername`,
  `prettyDate` and the DM list ordering.
- `server.dfy`, `handlers.dfy` — the server's roster and handlers
  (`pkg/subscriber.go`, `pkg/handlers.go`, `pkg/moderation_rules.go`):
  username de-duplication, blocking, broadcast fan-out, `SendTo`, the
  per-viewer Who's Online list with its video masking, the camera-open
  policy, boot/mute/block updates, `OnMe` moderation, takeback permission,
  DM gating and the merge of server and JWT moderation rules.
- `messages.dfy` — the video-status bit flags and the message ID counter.
- `direct_messages.dfy`, `message_filters.dfy`, `echo_messages.dfy`,
  `logging.dfy`, `commands.dfy`, `api.dfy`, `pages.dfy`, `webhooks.dfy`,
  `ip_address.dfy`, `config.dfy`, `jwt_rules.dfy` — the rest of the server:
  DM channel IDs, guards and paging, filters and report context, echo
  buffers, conversation logging, operator commands, the statistics and
  admin endpoints, the IP ban lists, webhook lookups, client address
  selection, settings lookups and JWT rule predicates.
- `bot_handlers.dfy`, `chatbot.dfy`, `client_utils.dfy` — the chatbot
  client: its scrollback cache, reaction de-duplication, greeting cooldowns,
  brain variables and websocket URL.
- `status_message.dfy`, `local_storage.dfy` — the front end's status menu
  and its localStorage settings wrapper.
- `common.dfy` — shared `Option`/`Result` types and string helpers.

Objects and maps that the source updates in place are Dafny classes whose
methods state the whole new state with `old(...)`; pure lookups and
encodings are functions with lemmas beside them. Messages a handler sends,
connections it closes and timers it arms are returned or recorded as
effects rather than performed. Times are explicit parameters.

## Model

| member | source | states |
|---|---|---|
| Messages.Bit | pkg/messages/messages.go:126-134 | each flag constant is `1 << iota` for its declaration position: a single bit below bit 7 |
| Messages.FlagsAreIotaBits | pkg/messages/messages.go:126-134 | the seven flags are distinct single bits at positions 0-6 in the order Active, NSFW, Muted, NonExplicit, MutualRequired, MutualOpen, OnlyVIP, pairwise disjoint |
| Messages.BitsDisjoint | pkg/messages/messages.go:126-134 | every flag bit is non-zero, and two different flags share no bit |
| Messages.Encode | pkg/messages/messages.go:126-134 | the word for a list of flags is the OR of their bits |
| Messages.EncodeHas | pkg/messages/messages_test.go:22-60 | under the test's reading (`v & f == f`), an encoded word has a flag iff the flag was listed |
| Messages.EncodeWithin | pkg/messages/messages.go:126-134 | an encoded word sets nothing above bit 6 |
| Messages.FlagWordWithin | pkg/messages/messages.go:126-134 | the word built from seven booleans sets nothing above bit 6 |
| Messages.DecodeEncode | pkg/messages/messages_test.go:22-60 | decoding an encoded list gives back exactly the set of listed flags |
| Messages.ListedFrom | pkg/messages/messages_test.go:22-60 | the flags listed for a word are exactly the candidate flags the word has |
| Messages.EncodeDecode | pkg/messages/messages_test.go:22-60 | re-encoding the flags a word has yields the word's low seven bits |
| Messages.LowSevenBits | pkg/messages/messages_test.go:22-60 | the word built from a word's seven flag tests equals its low seven bits |
| Messages.FortyNineDecodes | pkg/messages/messages_test.go:145-151 | 49 decodes to exactly Active, MutualRequired and MutualOpen |
| Messages.SetFlag | pkg/messages/messages_test.go:175-200 | OR-ing a flag's bit sets that flag and leaves every other flag unchanged |
| Messages.MutationSequence | pkg/messages/messages_test.go:161-221 | the test's whole mutation chain (`|` and `^` at equal precedence, left to right) decodes step by step to the expected flag sets, from 1 as {Active} to OnlyVIP and NSFW on top giving {Active, Muted, OnlyVIP, NSFW}; XOR of a set flag clears only that flag |
| Messages.MessageIDCounter.constructor | pkg/messages/messages.go:9-12 | the counter starts at the given start time |
| Messages.MessageIDCounter.NextMessageID | pkg/messages/messages.go:15-21 | returns the previous value plus one and stores it as the new value |
| Messages.TwoIDsIncrease | pkg/messages/messages.go:15-21 | two successive IDs from one counter are strictly increasing |
| JwtRules.KeyNamesExact | pkg/jwt/rules.go:42-47 | the dictionary's key names are exactly the four `Is*Rule` names, one per predicate |
| JwtRules.ToDict | pkg/jwt/rules.go:41-65 | the result has exactly the four keys, and a key is true iff some rule in the list satisfies its predicate (false by default) |
| JwtRules.EnabledSnoc | pkg/jwt/rules.go:49-62 | one more rule in the loop turns a key on iff it satisfies that key's predicate, and never turns one off |
| JwtRules.NoVideoImpliesNoBroadcast | pkg/jwt/rules.go:19-29 | `novideo` alone enables exactly IsNoVideoRule and IsNoBroadcastRule |
| JwtRules.EnabledIgnoresOrderAndDuplicates | pkg/jwt/rules.go:49-62 | two rule lists with the same members give the same dictionary, whatever the order and repetitions |
| JwtRules.UnknownRulesIgnored | pkg/jwt/rules.go:19-33 | a rule string outside the four known ones enables nothing |
| Config.ModerationRule.constructor | pkg/config/config.go:124-129 | a new rule for a user has every flag off |
| Config.GetChannel | pkg/config/config.go:88-95 | nothing iff no configured channel has that ID; otherwise the first channel with that ID |
| Config.FirstChannel | pkg/config/config.go:89-94 | the loop's result: nothing iff no channel matches, otherwise the earliest match |
| Config.GetModerationRule | pkg/config/config.go:272-279 | nil iff no rule names that user; otherwise the first rule for that username |
| Config.FirstRule | pkg/config/config.go:273-278 | the loop's result: nothing iff no rule matches, otherwise the earliest match |
| Config.DefaultChannels | pkg/config/config.go:149-175 | three channels `lobby`, `offtopic`, `vip` in that order, and only `vip` is VIP |
| Config.DefaultConfig | pkg/config/config.go:136-228 | JWT strict and disabled, the three default channels (lookup finds `vip` as VIP and `lobby` as not), the two disabled webhooks, one empty `example` moderation rule, logging off in `./logs` for lobby and offtopic, one disabled censoring filter |
| Config.Migrate | pkg/config/config.go:249-255 | a loaded version different from the current one is replaced by the current one and a re-save is requested; nothing else changes |
| Config.MigrateIdempotent | pkg/config/config.go:249-255 | loading a migrated file again requests no re-save and changes nothing |
| WebRtcClient.IsVideoNotAllowed | src/lib/WebRTC.js:1327-1371 | the NoVideo rule always crosses the button out; without it, an active camera that invited us is always allowed |
| WebRtcClient.IsVideoNotAllowedReasons | src/lib/WebRTC.js:1331-1367 | refused iff the NoVideo rule holds, or (the camera did not invite us and) mutual sharing is refused — ours off, or ours VIP-only while we are VIP and they are a listed non-VIP — or we muted or booted them, or an explicit/non-explicit mismatch with our active camera |
| WebRtcClient.ShouldOfferVideo | src/lib/WebRTC.js:501-510 | our camera is attached to an offer only when it is active and the target auto-opens (MutualOpen), never red at a non-explicit target |
| WebRtcClient.ShouldOfferVideoRespectsViewer | src/lib/WebRTC.js:501-510 | a target we booted or muted, a non-explicit target of our explicit camera, or an inactive camera never gets our video on the offer |
| WebRtcClient.AcceptsTrack | src/lib/WebRTC.js:398-422 | a shown stream never comes from a booted admin; on the answerer side it needs our mutual-open setting and is refused for an expressly closed peer while "remember expressly closed" is on |
| WebRtcClient.OffererTrackAccepted | src/lib/WebRTC.js:402-422 | a stream we asked for (offerer side) is refused only when the peer is a booted admin |
| WebRtcClient.MyVideoFlagEncodesSettings | src/lib/WebRTC.js:265-277 | 0 when the camera is off; otherwise exactly the OR of Active with the Muted, NSFW (if permitted), MutualRequired, MutualOpen, NonExplicit and OnlyVIP (if VIP) bits whose settings are on |
| WebRtcClient.ActiveFlagWordHas | src/lib/WebRTC.js:269-275 | an active camera's word has a flag iff it is expected for the settings |
| WebRtcClient.MyVideoFlag | src/lib/WebRTC.js:265-277 | the word has a flag iff that flag is expected for the settings: none when the camera is off, otherwise Active and each setting that is on (NSFW only where permitted, OnlyVIP only for a VIP) |
| WebRtcClient.ExpectedFlagsListed | src/lib/WebRTC.js:269-275 | for an active camera each flag is listed iff its setting (and gate) is on |
| WebRtcClient.ScaleIndex | src/lib/WebRTC.js:1866-1872 | the index of the first option equal to the current scale, or the option count when none is |
| WebRtcClient.ScaleVideoSizeWrapsAtLargest | src/lib/WebRTC.js:1883-1889 | as written, growing past "x4" clamps to the scale string's length minus one and lands on "x1" (see Findings) |
| WebRtcClient.ScaleVideoSizeSteps | src/lib/WebRTC.js:1864-1890 | as intended, the result is always an option, moves one place up or down from a known option and clamps at both ends |
| WebRtcClient.OptionsDistinct | src/lib/WebRTC.js:91-97 | the five scale options are distinct, so an option's index is its position |
| WebRtcClient.ScaleVideoSizeStaysAtLargest | src/lib/WebRTC.js:1883-1886 | as intended, growing at the largest size keeps "x4" |
| WebRtcClient.ScaleVideoSizeAsWritten | src/lib/WebRTC.js:1864-1889 | as written: any result is an option; it fails (indexing past the options) only when growing from an unknown size; from a known size it agrees with the intended stepper except when growing from "x4" |
| WebRtcClient.ScaleVideoSize | src/lib/WebRTC.js:1864-1889 | as intended, the new size is always one of the five options |
| WebRtcClient.Swept | src/lib/WebRTC.js:1156-1191 | the sweep keeps a subset of the records, each unchanged |
| WebRtcClient.SweptLeavesKeepers | src/lib/WebRTC.js:1162-1191 | a record survives the sweep iff its user has a stream, is watching us or is a booted admin, or the record holds no connection; with well-formed records exactly the keepers survive |
| WebRtcClient.SweepIdempotent | src/lib/WebRTC.js:1156-1191 | sweeping a swept registry changes nothing and closes nothing |
| WebRtcClient.SweptStep | src/lib/WebRTC.js:1162-1190 | one loop iteration: a keeper is skipped; any other user holding a connection loses its record and all its connections are closed |
| WebRtcClient.RateLimitIgnoresWatchers | src/lib/WebRTC.js:1504 | booting someone who is watching us is never limited and changes nothing |
| WebRtcClient.RateLimitCounterBounded | src/lib/WebRTC.js:1505-1508 | the counter rises by one only on a ping below `maxFreeBoots`, so it stays within 0..maxFreeBoots; the cooldown changes only on an unrefused ping |
| WebRtcClient.RateLimitLimitedIff | src/lib/WebRTC.js:1511-1524 | limited iff the target is not watching, the free boots are spent (counting this ping) and now is before `cooldownAt` |
| WebRtcClient.RateLimitArmsCooldown | src/lib/WebRTC.js:1527-1530 | at the cap and past the cooldown, a ping is allowed and sets `cooldownAt` to now + 60·1000 |
| WebRtcClient.WebRtcState.constructor | src/lib/WebRTC.js:63-183 | every per-user map starts empty, nobody is watching, and the rate limiter starts at counter 0 with no cooldown |
| WebRtcClient.WebRtcState.StartWebRTC | src/lib/WebRTC.js:357-524 | creates or extends the user's record with the new connection in its role, marked connecting; an answerer attaches our camera iff it is active; an offerer attaches it iff `shouldOfferVideo`, else adds receive-only transceivers |
| WebRtcClient.WebRtcState.OnCandidate | src/lib/WebRTC.js:604-622 | no effect when the user has no record or no connecting handle; otherwise exactly one candidate goes to the connecting handle |
| WebRtcClient.WebRtcState.OnSDP | src/lib/WebRTC.js:624-649 | no effect when the user has no record or no connecting handle; otherwise exactly one remote description goes to the connecting handle |
| WebRtcClient.WebRtcState.OnTrack | src/lib/WebRTC.js:398-478 | a refused stream leaves streams, timeouts, mute state, sent messages and freeze intervals untouched; an accepted one clears the open timeout, stores the stream, auto-mutes if set, sends one `watch` and records the freeze interval |
| WebRtcClient.WebRtcState.OnWatch | src/lib/WebRTC.js:651-663 | the peer is added to `watching` unless a booted admin |
| WebRtcClient.WebRtcState.OnUnwatch | src/lib/WebRTC.js:665-670 | the peer leaves `watching`, then the sweep runs |
| WebRtcClient.WebRtcState.CleanupPeerConnections | src/lib/WebRTC.js:1156-1191 | the registry becomes its sweep and exactly the dropped records' connections are closed |
| WebRtcClient.WebRtcState.SweepOne | src/lib/WebRTC.js:1163-1190 | one iteration: keepers untouched; otherwise the record's connections are closed and the record deleted when it held one |
| WebRtcClient.WebRtcState.CloseVideo | src/lib/WebRTC.js:1068-1140 | freeze state always cleared, then each role leaves its exact post-state: offerer (OffererClosed): stream, mute and pop-out deleted, `unwatch` sent, the offerer handle closed and the record dropped unless mutualOpen is on and the peer watches us, then the sweep; answerer (AnswererClosed): only the answerer handle closed and the record dropped, with the same exception, no `unwatch`, then the sweep; logged off (PeerGone): stream and watch deleted, both handles closed and the record with its mute and pop-out entries dropped, `unwatch` sent, then the sweep |
| WebRtcClient.WebRtcState.CloseOffererSide | src/lib/WebRTC.js:1076-1098 | the offerer branch: OffererClosed from the state before it, and one `unwatch` sent |
| WebRtcClient.WebRtcState.CloseAnswererSide | src/lib/WebRTC.js:1099-1113 | the answerer branch: AnswererClosed from the state before it; streams, mutes, pop-outs, watchers and sent messages untouched |
| WebRtcClient.WebRtcState.ClosePeerLoggedOff | src/lib/WebRTC.js:1116-1140 | the logged-off branch: PeerGone from the state before it, its freeze state cleared, and one `unwatch` sent |
| WebRtcClient.WebRtcState.HangUpBoth | src/lib/WebRTC.js:1118-1128 | closes both directions and deletes the record, mute and pop-out entries |
| WebRtcClient.WebRtcState.ExpresslyCloseVideo | src/lib/WebRTC.js:1142-1149 | marks the peer expressly closed, clears its freeze state and then leaves exactly closeVideo's post-state for the role: records, closed handles, streams, mutes, pop-outs, watchers and sent messages are all given |
| WebRtcClient.WebRtcState.RateLimitPreemptiveBoots | src/lib/WebRTC.js:1493-1534 | the result and new limiter state are those of the pure rate-limit step at the given time |
| WebRtcClient.WebRtcState.DoBootUser | src/lib/WebRTC.js:1472-1484 | sends `boot` first and records the boot; a peer without a record only leaves `watching`; a peer with one is torn down as closeVideo with no role does: stream, watch, mute, pop-out and freeze entries deleted, both handles closed, `unwatch` sent, then the sweep, with the records and closed handles given exactly |
| WebRtcClient.WebRtcState.BootUser | src/lib/WebRTC.js:1431-1470 | a booted user is unbooted only on confirmation; otherwise the rate limiter is asked before and after confirmation and a refused or cancelled boot changes nothing; booting a watcher is never rate-limited |
| WebRtcClient.WebRtcState.OpenVideo | src/lib/WebRTC.js:962-1066 | the outcome is the decision the checks give, in order; a failed pre-check changes nothing; passing them clears `expresslyClosed`; a debounced call changes nothing further; otherwise the target is debounced, an old offerer connection is closed exactly as closeVideo(u, "offerer") closes it (handle closed, record dropped unless mutual-open keeps it, sweep, one `unwatch`), nothing else changes without one, and on success the timeout is armed and `open` sent |
| WebRtcClient.WebRtcState.RequestOpen | src/lib/WebRTC.js:1015-1063 | past the debounce: the target is debounced, an old offerer connection is closed exactly as closeVideo(u, "offerer") closes it with one `unwatch`, and without one nothing else changes; the outcome is the re-check's, and on success the timeout is armed and `open` sent after any `unwatch` |
| WebRtcClient.WebRtcState.ClearAndRequest | src/lib/WebRTC.js:1009-1063 | past the pre-checks: `expresslyClosed` loses the target; a debounced target changes nothing else; otherwise the post-state of RequestOpen |
| WebRtcClient.WebRtcState.DropOffererConnection | src/lib/WebRTC.js:1016-1019 | the full offerer post-state of closeVideo: stream, mute, pop-out and freeze entries deleted, the offerer handle closed and the record dropped unless mutual-open keeps it for a peer watching us, then the sweep; one `unwatch` sent |
| WebRtcClient.WebRtcState.DebounceAndDrop | src/lib/WebRTC.js:1011-1019 | the target is debounced; an old offerer connection is closed exactly as closeVideo(u, "offerer") closes it with one `unwatch`, and without one nothing else changes |
| WebRtcClient.WebRtcState.UnMutualVideo | src/lib/WebRTC.js:1213-1228 | nothing changes while our camera is on; once it is off no mutual-required, non-inviting row keeps a connection record, the users closed are closed in order as closeVideo with no role does (one `unwatch` each, their stream, watch, mute, pop-out and freeze entries gone), and every other record changes only by the sweeps |
| WebRtcClient.WebRtcState.UnMutualRow | src/lib/WebRTC.js:1217-1226 | one row: a mutual-required camera that did not invite us is closed as closeVideo with no role closes it and joins the closed users; any other row changes nothing |
| WebRtcClient.SweptSinceSnoc | src/lib/WebRTC.js:1116-1191 | one more logged-off close, with keepers that only shrank, extends the summary: its record dropped, its handles closed, then one sweep |
| WebRtcClient.WebRtcState.UnMutualLoop | src/lib/WebRTC.js:1216-1227 | the loop over the Who List leaves no mutual-only camera with a record, and the running summary of closes holds |
| WebRtcClient.WebRtcState.UnWatchNonExplicitVideo | src/lib/WebRTC.js:1230-1256 | nothing changes while our camera is off; the call throws iff a clash check runs and some user on our screen is missing from the Who List; every camera it removed clashed and lost its record, each with one `unwatch`, in order; without a throw no camera left on screen clashes with our explicit or non-explicit setting |
| WebRtcClient.WebRtcState.UnWatchOne | src/lib/WebRTC.js:1245-1252 | one clashing camera closed as closeVideo with no role closes it: its stream gone, no record left, one `unwatch`, and the running record extended |
| WebRtcClient.RemovedChain | src/lib/WebRTC.js:1237-1254 | the removals of two passes, one after the other, are those of one run: each user leaves the streams and the watchers once with one `unwatch`, in order |
| WebRtcClient.WebRtcState.UnWatchPass | src/lib/WebRTC.js:1237-1254 | one pass over the cameras on screen at its start: throws iff one of them is missing from the Who List; every camera removed clashed with the pass and lost its record; without a throw exactly the clashing cameras are gone; the removals are recorded in order |
| WebRtcClient.OpenRequestedIff | src/lib/WebRTC.js:962-1063 | an `open` goes out iff the target is someone else, we are not hidden, have no NoVideo rule, are an operator or have not muted/booted them, passed the NSFW warning, are not debounced, have no explicit mismatch, and (as operator or not) pass isVideoNotAllowed |
| LegacyClient.Without | web/static/js/BareRTC.js:740-746 | the list with every occurrence of the reactor removed: nothing else is lost |
| LegacyClient.SpliceIsWithout | web/static/js/BareRTC.js:740-746 | in a duplicate-free list, splicing out the one match is the same as removing the reactor |
| LegacyClient.WithoutAbsent | web/static/js/BareRTC.js:740-746 | removing an absent reactor leaves the list unchanged |
| LegacyClient.WithoutNoDup | web/static/js/BareRTC.js:740-746 | removal keeps a reactor list free of duplicates |
| LegacyClient.Toggle | web/static/js/BareRTC.js:737-753 | after a reaction the reactor is in the list iff it was not before, and every other reactor's membership is unchanged |
| LegacyClient.ToggleReactor | web/static/js/BareRTC.js:737-753 | the scan-and-splice loop leaves exactly the toggled list and keeps it free of duplicates |
| LegacyClient.ToggleNoDup | web/static/js/BareRTC.js:737-753 | toggling keeps reactor lists free of duplicates |
| LegacyClient.ToggleTwiceFromAbsent | web/static/js/BareRTC.js:737-753 | the same reaction sent twice restores the list exactly |
| LegacyClient.SpliceIsWithoutAppend | web/static/js/BareRTC.js:740-753 | removing a reactor just appended gives back the earlier list |
| LegacyClient.WithoutAppend | web/static/js/BareRTC.js:740-746 | removal ignores a trailing copy of the removed reactor |
| LegacyClient.Trimmed | web/static/js/BareRTC.js:2240-2246 | the trimmed history is a tail of the full one, at most `scrollback` long when positive, and untouched when `scrollback` ≤ 0 or not exceeded |
| LegacyClient.PushedKeepsNewest | web/static/js/BareRTC.js:2230-2258 | after a push the channel holds the newest entries in arrival order ending with the new one (at most `scrollback` when positive); `unread` rises by exactly one iff the channel is not the current one, the action is not `presence` and the sender is not ChatServer; other channels are untouched |
| LegacyClient.InitHistory | web/static/js/BareRTC.js:2182-2190 | the channel exists afterwards and every existing channel is unchanged |
| LegacyClient.InitHistoryIdempotent | web/static/js/BareRTC.js:2182-2190 | a second initHistory changes nothing |
| LegacyClient.CollapsedImage | web/static/js/BareRTC.js:2214-2225 | the collapsed markup still holds the original message |
| LegacyClient.IndexOfMsg | web/static/js/BareRTC.js:961-964 | the position of the first history entry with that ID, or none when no entry has it |
| LegacyClient.FindMessage | web/static/js/BareRTC.js:960-969 | the first channel in key order whose history holds the ID, with the first position; none iff no channel holds it |
| LegacyClient.NormalizeUsername | web/static/js/BareRTC.js:617-619 | the result is a suffix of the name that does not start with `@`, and only `@` characters were removed |
| LegacyClient.NormalizeKeepsPlainNames | web/static/js/BareRTC.js:617-619 | any run of leading `@` is stripped and the rest, including later `@`, is kept |
| LegacyClient.Hour12 | web/static/js/BareRTC.js:2339 | the printed hour is always in 1..12 |
| LegacyClient.PadMinutes | web/static/js/BareRTC.js:2336 | minutes always print as two digits, with a leading zero below 10 |
| LegacyClient.PrettyDateElevenAmIsPm | web/static/js/BareRTC.js:2337 | as written, 11:30 and 23:30 print identically with "pm" (see Findings) |
| LegacyClient.PrettyDate | web/static/js/BareRTC.js:2333-2340 | as intended: empty exactly for an undefined date; otherwise the time ends in " pm" from hour 12 and in " am" before it |
| LegacyClient.RenderSuffix | web/static/js/BareRTC.js:2340 | the rendered time is never empty and ends with a space and the am/pm suffix |
| LegacyClient.PrettyDateAsWritten | web/static/js/BareRTC.js:2333-2340 | as written: empty exactly for an undefined date; otherwise the time ends in " pm" from hour 11 and in " am" before it |
| LegacyClient.PrettyPartsRecoverClock | web/static/js/BareRTC.js:2333-2341 | with "pm" from noon, the hour, two-digit minutes and suffix determine the 24-hour reading |
| LegacyClient.PrettyPartsInjective | web/static/js/BareRTC.js:2333-2341 | with "pm" from noon, two different times never print the same |
| LegacyClient.PadMinutesInjective | web/static/js/BareRTC.js:2336 | different minutes pad to different strings |
| LegacyClient.LegacyMyVideoFlag | web/static/js/BareRTC.js:494-504 | 0 when the camera is off; otherwise Active plus exactly the Muted, NSFW, MutualRequired and MutualOpen bits its settings ask for, never the is-talking bit and never OnlyVIP |
| LegacyClient.LegacyFlagWord | web/static/js/BareRTC.js:181-188 | the legacy bit positions: each option's bit is set iff the option is on; bits 3 and 6 stay clear |
| LegacyClient.LegacyIsVideoNotAllowed | web/static/js/BareRTC.js:1955-1969 | refused iff an active mutual-required camera meets our inactive one, or we muted them |
| LegacyClient.LegacyRefusalsStillRefused | web/static/js/BareRTC.js:1955-1969 | everything the legacy check refuses, the current client (src/lib/WebRTC.js:1327-1371) refuses too, unless the camera invited us |
| LegacyClient.DMRows | web/static/js/BareRTC.js:432-444 | one row per `@` channel in key order, naming the partner without the `@` |
| LegacyClient.InsertRow | web/static/js/BareRTC.js:446 | inserting a row adds it and loses nothing |
| LegacyClient.SortNewestFirst | web/static/js/BareRTC.js:446 | the sort is a permutation of the rows (order: SortNewestFirstSorted; ties: SortNewestFirstStable) |
| LegacyClient.InsertRowSorted | web/static/js/BareRTC.js:446 | inserting into a newest-first list keeps it newest first |
| LegacyClient.SortNewestFirstSorted | web/static/js/BareRTC.js:446 | the sorted rows are newest first |
| LegacyClient.InsertRowTies | web/static/js/BareRTC.js:446 | inserting a row puts it ahead of every row updated at the same time and keeps their order |
| LegacyClient.SortNewestFirstStable | web/static/js/BareRTC.js:446 | the sort is stable: rows updated at the same time come out in their input order, as `Array.prototype.sort` keeps them |
| LegacyClient.ActiveDMs | web/static/js/BareRTC.js:429-448 | the active DM rows are a permutation of the `@` channels' rows (order: ActiveDMsNewestFirst) |
| LegacyClient.ActiveDMsNewestFirst | web/static/js/BareRTC.js:429-448 | active DMs are newest first, threads updated at the same time keep the channels' key order, and each names its partner without the `@` |
| LegacyClient.SidesOf | web/static/js/BareRTC.js:1882-1889 | a logged-off peer's offerer and answerer are closed iff present, at most two closes |
| LegacyClient.ChatApp.constructor | web/static/js/BareRTC.js:2182-2190 | the app starts with no channels, reactions, connections, streams or watchers |
| LegacyClient.ChatApp.InitChannel | web/static/js/BareRTC.js:2182-2190 | the channel map becomes its initHistory, and a new channel's key is appended in insertion order |
| LegacyClient.ChatApp.PushHistory | web/static/js/BareRTC.js:2191-2262 | a DM from another non-operator into a channel that does not exist yet is dropped with no channel created when `closeDMs` is on; an image with "hide" only initialises the channel; otherwise the (collapsed if set) entry is appended, trimmed and counted as specified by `Pushed`; whenever the message is not dropped, a channel seen for the first time is added at the end of the channel key order and the order is otherwise kept |
| LegacyClient.ChatApp.AppendEntry | web/static/js/BareRTC.js:2228-2258 | the append step: the channel map becomes `Pushed` of the old one |
| LegacyClient.ChatApp.OnReact | web/static/js/BareRTC.js:723-754 | the reaction table becomes the toggled one, with the emoji key deleted when its last reactor withdraws |
| LegacyClient.ChatApp.OnTakeback | web/static/js/BareRTC.js:958-970 | removes exactly the first match found in key order; with no match no history changes |
| LegacyClient.ScanHistory | web/static/js/BareRTC.js:961-967 | the scan of one history finds exactly the first entry with the message ID, or none |
| LegacyClient.FindMessageScan | web/static/js/BareRTC.js:958-970 | the scan over the channels in key order finds exactly the first channel holding the message and its first position there |
| LegacyClient.ChatApp.CloseVideo | web/static/js/BareRTC.js:1849-1897 | freeze state cleared; offerer side: stream, mute and pop-out deleted, `unwatch` sent, and when an offerer connection exists it is closed and both the offerer and answerer entries dropped; answerer side: when an answerer connection exists it is closed and both entries dropped, nothing else changes; logged off: both entries dropped with each open side closed, stream and watch deleted, mute and pop-out deleted when a connection existed, `unwatch` sent; no sweep and no mutual-open exception |
| LegacyClient.ChatApp.CloseOffererSide | web/static/js/BareRTC.js:1857-1869 | the offerer branch: stream, mute and pop-out deleted, `unwatch` sent; an open offerer is closed and the peer's offerer and answerer entries dropped, otherwise both entries are kept |
| LegacyClient.ChatApp.CloseAnswererSide | web/static/js/BareRTC.js:1870-1876 | the answerer branch: an open answerer is closed and the peer's offerer and answerer entries dropped, otherwise both are kept |
| LegacyClient.ChatApp.ClosePeerLoggedOff | web/static/js/BareRTC.js:1879-1897 | the logged-off branch: both entries dropped and each open side closed, stream and watch deleted, mute and pop-out deleted when a connection existed, `unwatch` sent |
| Server.Notice | pkg/subscriber.go:252-262 | a ChatServer notice is an `error` action from "ChatServer" carrying the text |
| Server.BlocksSymmetric | pkg/subscriber.go:543-577 | `Blocks(a, b) == Blocks(b, a)` |
| Server.BlocksCases | pkg/subscriber.go:543-577 | false if either side is nil; without blockable admins any admin party makes it false; otherwise blocking in either direction counts unless an admin party is unblockable |
| Server.Blocks | pkg/subscriber.go:543-577 | blocking needs two sessions one of which lists the other as blocked; it never holds for an admin unless admins are blockable, and never for an admin with the unblockable override |
| Server.FirstNamed | pkg/subscriber.go:277-284 | the first session with that username, nil iff none has it |
| Server.Keep | pkg/subscriber.go:287-306 | the remaining sessions are exactly those not removed |
| Server.KeepNothing | pkg/subscriber.go:287-306 | removing nothing keeps every session |
| Server.KeepTwice | pkg/subscriber.go:287-306 | two removals in a row remove the union |
| Server.FanoutMembers | pkg/subscriber.go:377-400 | a broadcast sends the unchanged message to exactly the sessions passing the filter |
| Server.Relayed | pkg/subscriber.go:417-423 | SendTo's copy keeps action, channel, username, message and ID and drops every other field |
| Server.NamedMembers | pkg/subscriber.go:414-425 | SendTo sends the copy to exactly the sessions with that username |
| Server.NamedEmptyIff | pkg/subscriber.go:414-429 | nothing is sent iff no session has that username |
| Server.ProbeInjective | pkg/subscriber.go:335-341 | different counters give different candidate names, so the search never revisits one |
| Server.MaskedVideoHides | pkg/subscriber.go:470-495 | own entries are never masked; a user who boots or mutes a non-admin viewer shows as 0; a VIP-only camera shows as 0 to any non-VIP viewer, admins included; otherwise the flags are unchanged |
| Server.WithoutMutualOpenOnlyClears | pkg/subscriber.go:484 | clearing MutualOpen never turns a flag on |
| Server.MaskedVideo | pkg/subscriber.go:475-496 | as intended, the mask never turns a flag on, and leaves the word alone unless the user boots or mutes the viewer or has a VIP-only camera the viewer may not see |
| Server.MaskedVideoForAdmin | pkg/subscriber.go:478-484 | as intended, an admin viewer the user booted or muted sees every flag but MutualOpen |
| Server.WithoutMutualOpenFlags | pkg/subscriber.go:478-484 | clearing MutualOpen leaves every other flag as it was |
| Server.MaskedVideoAsWrittenSetsMutualOpen | pkg/subscriber.go:483 | as written the XOR turns MutualOpen on for a camera without it: 1 shows as 33 (see Findings) |
| Server.MaskedVideoAgreesWhenFlagSet | pkg/subscriber.go:478-495 | where MutualOpen was set, the as-written and intended masks agree |
| Server.XorIsClearWhenSet | pkg/subscriber.go:483 | XOR on a set MutualOpen bit clears only that bit |
| Server.AuthNames | pkg/subscriber.go:438-444 | the collected names are exactly the authenticated sessions' usernames |
| Server.LastAuth | pkg/subscriber.go:438-444 | `userSub[name]` is the last authenticated session with that name, nil iff none |
| Server.WhoEntriesSnoc | pkg/subscriber.go:453-510 | the inner loop appends one row per name, in name order |
| Server.EntryNames | pkg/subscriber.go:453-510 | the usernames of the rows, position by position |
| Server.WhoEntriesSound | pkg/subscriber.go:453-510 | every row names an authenticated, non-hidden user with no blocking toward the viewer, shown through the per-viewer mask |
| Server.WhoEntriesComplete | pkg/subscriber.go:453-510 | every visible authenticated user with a listed name gets a row |
| Server.WhoEntriesSorted | pkg/subscriber.go:445-453 | sorted names give rows in sorted username order |
| Server.WhoEntry | pkg/subscriber.go:467-515 | the row carries the user's name, status and do-not-disturb flag; its video flags are a subset of the user's, and exactly the user's in their own list; VIP is shown only for a JWT VIP, and operator iff the JWT says admin |
| Server.WhoMessage | pkg/subscriber.go:512-515 | a `who` message carrying the viewer's rows |
| Server.WhoSendsSnoc | pkg/subscriber.go:449-516 | the outer loop sends one list per authenticated session, in session order |
| Server.WhoSendsMembers | pkg/subscriber.go:449-516 | a list goes to exactly each authenticated session, built for that viewer |
| Server.ChatServer.GetSubscriber | pkg/subscriber.go:277-284 | a session with that username, nil iff nobody has it |
| Server.ChatServer.DeleteSubscriber | pkg/subscriber.go:287-306 | nil is ignored; otherwise exactly that session is removed |
| Server.ChatServer.UniqueUsername | pkg/subscriber.go:323-348 | the result is never in use; no error iff the name was free, and then it is returned as is; otherwise "orig N" with the smallest free N ≥ 2 |
| Server.ChatServer.Broadcast | pkg/subscriber.go:352-401 | sends exactly the broadcast specification: nothing for `presence` in the first 30 s, else the filtered fan-out |
| Server.ChatServer.BroadcastRecipients | pkg/subscriber.go:359-400 | every recipient is an authenticated session that does not mute the sender, has no blocking with the sender, and is VIP or admin on a VIP channel; no presence goes out in the first 30 s |
| Server.ChatServer.BroadcastReachesEveryEligible | pkg/subscriber.go:377-400 | every session passing the filter receives the message |
| Server.ChatServer.SendTo | pkg/subscriber.go:405-429 | one leading `@` is stripped; the copy goes to every session with the name; an error iff nobody has it |
| Server.ChatServer.SendWhoList | pkg/subscriber.go:431-518 | sends exactly the per-viewer lists of WhoLists; a booted or muted admin viewer's camera entry uses MaskedVideo's corrected admin mask (MutualOpen cleared, as MaskedVideoForAdmin states), not the XOR of pkg/subscriber.go:483 (see Findings) |
| Server.ChatServer.SortedAuthenticatedUsers | pkg/subscriber.go:438-445 | the names sorted, each mapped to its session |
| Server.ChatServer.SendEachWhoList | pkg/subscriber.go:449-516 | the outer loop's sends are the per-viewer lists |
| Server.ChatServer.WhoListSend | pkg/subscriber.go:449-516 | an authenticated viewer gets one list, an unauthenticated one none |
| Server.ChatServer.AuthenticatedUsers | pkg/subscriber.go:438-444 | the names in session order and, per name, its last authenticated session |
| Server.ChatServer.SortedNamesIndexed | pkg/subscriber.go:445 | sorting keeps every name indexed to its session |
| Server.ChatServer.WhoListFor | pkg/subscriber.go:453-510 | one viewer's rows are the specified entries |
| Server.ChatServer.AppendRow | pkg/subscriber.go:509 | appends the row built for the user |
| Server.ChatServer.VisibleRow | pkg/subscriber.go:455-463 | hidden users and blocked pairs give no row |
| Server.ChatServer.WhoRow | pkg/subscriber.go:465-508 | the row carries the user's name, status, masked flags and claims |
| Server.ChatServer.RowVideo | pkg/subscriber.go:470-495 | the row's flags are the per-viewer mask (intended admin case) of the user's status |
| Server.ChatServer.WhoListsFacts | pkg/subscriber.go:431-518 | each list goes to an authenticated session and holds, in sorted order, exactly the authenticated users that are neither hidden nor blocked with that viewer |
| Server.ChatServer.SendToStripsOneAt | pkg/subscriber.go:407 | only one leading `@` is stripped: "@@name" is looked up as "@name" |
| Handlers.FirstHit | pkg/handlers.go:531-537 | none iff no condition holds; otherwise the reason of the first condition that holds, all earlier ones being false |
| Handlers.IsVideoNotAllowedChain | pkg/handlers.go:503-538 | the verdict is: camera off → "not enabled"; mutual camera required and the viewer's camera off → the mutual-camera reason; VIP-only and a viewer neither VIP nor admin → no permission; muted or blocked by the owner and not admin → no permission; else allowed |
| Handlers.IsVideoNotAllowed | pkg/handlers.go:503-538 | an allowed camera carries no reason, and a refusal carries one of the three messages: not enabled, no permission, or the mutual-camera message naming the camera's owner |
| Handlers.AdminBypass | pkg/handlers.go:513-528 | an admin viewer may open exactly when the camera is on and the mutual-camera condition is met |
| Handlers.IsVideoNotAllowedReason | pkg/handlers.go:503-538 | refused iff a non-empty reason is given |
| Handlers.OnOpen | pkg/handlers.go:455-498 | the sends are those of the open decision on the viewer and the looked-up target |
| Handlers.OpenSendsShape | pkg/handlers.go:455-498 | an unknown or refused target gets nothing and the viewer at most one notice; an allowed open ends with a ring to the target and an open echo to the viewer carrying the same secret, after at most one admin note |
| Handlers.AdminOpenNotesToViewer | pkg/handlers.go:474-480 | the admin note is at most one notice, addressed to the viewer |
| Handlers.OnBoot | pkg/handlers.go:541-564 | boot adds exactly the target to the booted set, unboot removes exactly it; the messages are the admin notice (on boot only, computed before the boot) followed by every Who List |
| Handlers.OnMute | pkg/handlers.go:566-590 | mute adds exactly the target to the muted set, unmute removes it; an online admin target is told the new status; then every Who List is sent |
| Handlers.OnBlock | pkg/handlers.go:592-610 | blocking an online admin changes nothing and sends the refusal notice; otherwise the target joins the blocked set and every Who List is sent |
| Handlers.OnBlocklist | pkg/handlers.go:612-626 | every listed name joins both the muted and the blocked set, nothing else does, and every Who List is sent |
| Handlers.ForcedVideoInactive | pkg/handlers.go:389-393 | without the Active bit or without a rule the requested status is kept and nothing is reflected |
| Handlers.ForcedVideoDisabled | pkg/handlers.go:396-414 | DisableCamera zeroes the status before CameraAlwaysNSFW, which then leaves only the NSFW bit |
| Handlers.ForcedVideoNSFW | pkg/handlers.go:405-407 | CameraAlwaysNSFW sets the NSFW flag and keeps every other flag |
| Handlers.ForcedVideoReflects | pkg/handlers.go:405-408 | the status is reflected back exactly when the NSFW flag was missing |
| Handlers.ForcedVideo | pkg/handlers.go:389-414 | an inactive camera or a user without a rule keeps the status and is not told; with CameraAlwaysNSFW the result has NSFW; no flag but NSFW is ever added; the client is told only of a changed status with NSFW set |
| Handlers.StoredChatStatus | pkg/handlers.go:419-438 | only an admin can end up "hidden"; a non-admin asking for "hidden" gets "away"; any other request is stored as asked |
| Handlers.FakePresence | pkg/handlers.go:419-433 | only an admin crossing the hidden boundary causes a fake presence, an exit when going hidden and a join when coming back |
| Handlers.OnMe | pkg/handlers.go:386-452 | stores the moderated camera status, the permitted chat status and the DND flag; sends the moderation notices, the fake presence, every Who List and, when the status was forced, a reflected `me` |
| Handlers.StoreMe | pkg/handlers.go:386-442 | the moderated camera status, the permitted chat status and DND are stored, with the moderation notices and the fake presence sent |
| Handlers.ModerateVideo | pkg/handlers.go:389-414 | the stored status and the reflect flag are the moderation of the requested status; the notices are the cut and the rule messages in order |
| Handlers.HiddenToggle | pkg/handlers.go:419-438 | the stored chat status and the fake presence are those the hidden rules give |
| Handlers.OnTakeback | pkg/handlers.go:258-288 | a non-admin taking back an ID outside their session and not removed from their DM history gets only the refusal notice; otherwise the takeback is broadcast |
| Handlers.TakebackOfOthersRefused | pkg/handlers.go:267-280 | for a non-admin and an ID not of this session, the takeback is permitted exactly when the DM history removed it |
| Handlers.SendDirectMessage | pkg/handlers.go:195-245 | the sends are the sender's echo followed by the recipient's delivery under the mute and block rules |
| Handlers.DMReachesRecipientIff | pkg/handlers.go:195-221 | the recipient receives the DM iff they do not mute a non-admin sender, a non-admin sender does not mute them, and no block stands between them |
| Handlers.MergeJwtEnabled | pkg/moderation_rules.go:21-37 | after the merge a flag is set iff it was configured or some JWT rule enables it (`redcam` → CameraAlwaysNSFW; `novideo` → NoVideo and NoBroadcast) |
| Handlers.MergeJwtMonotone | pkg/moderation_rules.go:21-37 | the merge never clears a flag and more rules or more configured flags never set fewer |
| Handlers.MergeJwt | pkg/moderation_rules.go:21-37 | applying the JWT rules never clears a configured flag |
| Handlers.MergedModerationRule | pkg/moderation_rules.go:14-42 | returns the configured rule updated in place with the JWT flags, or a fresh empty rule holding only the JWT flags; DisableCamera is never changed |
| Commands.Dispatch | pkg/commands.go:15-79 | a line not starting with a slash, a tokenizer error or a non-admin sender reaches no command; /kick, /ban and /nsfw get the parsed words |
| Commands.DispatchHandledIff | pkg/commands.go:15-79 | the line is reported handled iff it starts with a slash, parses into at least one word, comes from an admin and names /kick, /ban, /nsfw or /help (not /kickall) |
| Commands.RemovalTarget | pkg/commands.go:82-103 | the removed session exists iff a name was given, someone online has it and, for /kick, it is not the operator's own name; it is that user's session |
| Commands.RemovalNotifiesTarget | pkg/commands.go:89-102 | a removal sends the target a notice and the kick, then the operator a confirmation; every other outcome is one notice to the operator and kicks nobody |
| Commands.KickSelfRefused | pkg/commands.go:93-94 | /kick of one's own name removes nobody and sends only the "kick yourself" notice; /ban of one's own name is not refused |
| Commands.Remaining | pkg/commands.go:100 | no target leaves the sessions unchanged; otherwise exactly the target's sessions are dropped |
| Commands.RemovalCommand | pkg/commands.go:82-186 | /kick and /ban send the removal messages and delete exactly the target from the session list |
| Commands.NsfwWithoutNamePanics | pkg/commands.go:39-42 | the bare "/nsfw" sends its usage and then indexes `words[1]` past the end |
| Commands.NsfwAsWritten | pkg/commands.go:39-43 | as written: the usage is sent iff no name was given, and exactly then the handler indexes past the end; otherwise the named user's session is the one marked |
| Commands.NsfwTarget | pkg/commands.go:42-43 | the marked session exists iff a name was given and someone has it, and is that user's session |
| Commands.NsfwNotices | pkg/commands.go:39-51 | without a name only the usage; an unknown name one notice to the operator; otherwise the target's notice then its `me` echo carrying the marked status |
| Commands.NsfwCommand | pkg/commands.go:38-53 | the target's camera gains the NSFW flag and keeps the others, no other camera changes, and the notices, Who Lists and confirmation are sent in order |
| Commands.MarkNsfw | pkg/commands.go:46-52 | the found target gains the NSFW flag and the notices, Who Lists and confirmation follow |
| Commands.WithoutAuthenticatedExactly | pkg/commands.go:136-144 | /kickall leaves exactly the unauthenticated sessions |
| Commands.KickAllCommand | pkg/commands.go:106-145 | as intended, with the read lock released (see Findings): broadcasts the log-back-in notice (with the landing page link when JWT has one) and the kick, then only unauthenticated sessions remain, in order |
| Commands.DeleteAuthenticated | pkg/commands.go:136-144 | as intended, with the read lock released: the session list becomes the unauthenticated sessions, in order |
| Commands.KickLoopUnlocked | pkg/commands.go:136-144 | with the lock free the loop finishes and keeps exactly the unauthenticated sessions' positions, in increasing order |
| Commands.KeptPastAuthenticated | pkg/commands.go:139-143 | an authenticated session adds nothing to the positions kept |
| Commands.KeptUnauthenticated | pkg/commands.go:139-141 | an unauthenticated session is kept in front of the later ones |
| Commands.KickAllAsWrittenDeadlocks | pkg/commands.go:136-144 | as written, with the read lock held around the loop, the loop waits forever iff some session is authenticated, at the first such session (see Findings) |
| Commands.ProcessCommand | pkg/commands.go:15-79 | handled is as dispatched, the process exits only on /shutdown, only /nsfw's target's camera changes, the session list and the sends are those of the dispatched command |
| Commands.RunCommand | pkg/commands.go:29-73 | each command other than /nsfw changes the session list and sends as specified |
| DirectMessages.ChannelIDSymmetric | pkg/models/direct_messages.go:323-331 | both participants get the same channel ID whichever of them sends |
| DirectMessages.SplitChannelID | pkg/models/direct_messages.go:323-331 | a channel ID read back as two names rebuilds the ID exactly, with no colon in the first name |
| DirectMessages.CreateChannelID | pkg/models/direct_messages.go:323-331 | the ID is "@a:@b" or "@b:@a", and "@a:@b" when a sorts first |
| DirectMessages.ChannelIDRoundTrip | pkg/models/direct_messages.go:323-331 | for colon-free names the channel ID reads back as the two names, the lesser first |
| DirectMessages.ChannelIDInjective | pkg/models/direct_messages.go:323-331 | distinct pairs of colon-free names never share a channel ID |
| DirectMessages.ChannelIDCollidesOnColons | pkg/models/direct_messages.go:323-331 | with a colon in a name two different pairs of users share one channel ID |
| DirectMessages.Where | pkg/models/direct_messages.go:100-116 | a WHERE selection keeps exactly the rows that satisfy it, and no more rows than the table has |
| DirectMessages.WhereOrdered | pkg/models/direct_messages.go:100-116 | a selection from a table in message_id order is in message_id order |
| DirectMessages.Insert | pkg/models/direct_messages.go:77-80 | the INSERT adds exactly the new row to the table's rows |
| DirectMessages.InsertOrdered | pkg/models/direct_messages.go:77-80 | inserting an unused message ID keeps the table in message_id order |
| DirectMessages.LogMessage | pkg/models/direct_messages.go:63-83 | no database and a zero message ID are refused, a stored message ID is refused by the key; otherwise exactly the new row under the pair's channel is added and order is kept |
| DirectMessages.LoggedUnderSharedChannel | pkg/models/direct_messages.go:63-83 | a logged message is stored under the channel both sides share |
| DirectMessages.TakebackMessage | pkg/models/direct_messages.go:128-156 | without a database it fails; a non-admin succeeds iff they wrote a row with that ID; success reports true, removes every row with that ID and keeps every other row, in order |
| DirectMessages.ChannelBelow | pkg/models/direct_messages.go:177-184 | exactly the channel's rows below the bound |
| DirectMessages.ChannelBelowOrdered | pkg/models/direct_messages.go:177-184 | that selection is in message_id order |
| DirectMessages.NewestRows | pkg/models/direct_messages.go:177-184 | a page holds at most 20 rows |
| DirectMessages.PaginateDirectMessages | pkg/models/direct_messages.go:159-162 | fails exactly when there is no database |
| DirectMessages.PageIsNewest | pkg/models/direct_messages.go:173-208 | a page holds at most 20 of the conversation's rows below the bound, newest first, and any such row left out is older than every row on the page |
| DirectMessages.RemainingCountsOlderRows | pkg/models/direct_messages.go:173-221 | the page and the remaining count together cover the conversation's rows below the bound |
| DirectMessages.PageAndRemainder | pkg/models/direct_messages.go:207-216 | the rows below the last ID of the page are exactly those not on it |
| DirectMessages.ChannelBelowTwice | pkg/models/direct_messages.go:211-216 | selecting below a bound and then below a lower one is one selection |
| DirectMessages.LikeSelf | pkg/models/direct_messages.go:92-93 | a LIKE pattern without wildcards matches itself |
| DirectMessages.LikePrefixPercent | pkg/models/direct_messages.go:92 | `@alice:%` matches every string starting with `@alice:` |
| DirectMessages.LikePercentSuffix | pkg/models/direct_messages.go:93 | `%:@alice` matches every string ending with `:@alice` |
| DirectMessages.LikeAnything | pkg/models/direct_messages.go:92-93 | `%` matches every string |
| DirectMessages.ClearsAsWrittenCovers | pkg/models/direct_messages.go:91-116 | the LIKE query selects at least every row of the user's conversations |
| DirectMessages.ClearOverreachesOnUnderscore | pkg/models/direct_messages.go:91-93 | clearing "a_c" also selects the conversation between "abc" and "zed" |
| DirectMessages.ClearsExactlyParticipants | pkg/models/direct_messages.go:85-86 | for colon-free names the intended selection is exactly the rows of the user's conversations and the rows the user wrote |
| DirectMessages.ClearMessagesAsWritten | pkg/models/direct_messages.go:86-119 | fails exactly without a database; the count and the rows kept add up to the table |
| DirectMessages.ClearMessages | pkg/models/direct_messages.go:86-119 | fails exactly without a database; counts and deletes the user's rows, keeps every other row, and the two add up to the table |
| DirectMessages.WhereSplits | pkg/models/direct_messages.go:100-116 | a selection and its complement share out the table's rows |
| DirectMessages.SortOrder | pkg/models/direct_messages.go:251-261 | any sort other than "a-z", "z-a" and "oldest" means newest first |
| DirectMessages.PagesCoverCount | pkg/models/direct_messages.go:312-315 | there is always a first page; the last page starts before the count and the next would start at or past it; no names or no page size means one page |
| DirectMessages.PagesAreConsecutive | pkg/models/direct_messages.go:236-248 | the first page starts at offset 0 and each page starts `perPage` names after the previous |
| MessageFilters.DirectKeySymmetric | pkg/message_filters.go:145-153 | the DM context key does not depend on which party is named first |
| MessageFilters.JoinEndsWithLast | pkg/message_filters.go:164 | the joined context ends with its newest line |
| MessageFilters.MessageContexts.constructor | pkg/message_filters.go:113-117 | the context map starts empty |
| MessageFilters.MessageContexts.Push | pkg/message_filters.go:120-141 | the line is appended to the channel's context, which keeps only its newest 30 lines; no other channel changes |
| MessageFilters.MessageContexts.PushMessage | pkg/message_filters.go:120-141 | the formatted "time [user] message" line is pushed onto the channel's context, newest 30 kept |
| MessageFilters.MessageContexts.PushDirectMessage | pkg/message_filters.go:145-153 | the same push, under the sorted-pair DM key |
| MessageFilters.MessageContexts.GetContext | pkg/message_filters.go:156-165 | a channel never pushed to gives the placeholder; otherwise the text ends with the newest line |
| MessageFilters.MessageContexts.DirectContextSymmetric | pkg/message_filters.go:167-173 | the DM context reads the same whichever party asks |
| MessageFilters.MessageContexts.ContextShowsNewest | pkg/message_filters.go:120-165 | after a push the channel's context ends with the pushed line |
| MessageFilters.InterleaveEmpty | pkg/message_filters.go:58 | replacing an empty match with an empty string leaves the message unchanged |
| MessageFilters.ReplaceAllStars | pkg/message_filters.go:58 | replacing every occurrence of a match by one '*' per byte of its UTF-8 encoding only censors: each character is kept or becomes one '*' per byte |
| MessageFilters.StarredKeepsBytes | pkg/message_filters.go:58 | censored text has the UTF-8 byte length of the original |
| MessageFilters.StarredTransitive | pkg/message_filters.go:50-61 | censoring censored text is censoring the original |
| MessageFilters.Censor | pkg/message_filters.go:58 | censoring one match keeps each character or replaces it by one '*' per UTF-8 byte, so the byte length is kept |
| MessageFilters.CensorMatchesStars | pkg/message_filters.go:52-60 | censoring every match of a phrase keeps each character or turns it into one '*' per UTF-8 byte |
| MessageFilters.CensorPhrasesStars | pkg/message_filters.go:50-61 | censoring phrase after phrase keeps each character or turns it into one '*' per UTF-8 byte |
| MessageFilters.FirstFiring | pkg/message_filters.go:45-68 | the index found is the first enabled filter with a match; none means no enabled filter matches |
| MessageFilters.ScanFilter | pkg/message_filters.go:50-61 | matched iff some phrase has a match; the message is censored phrase by phrase, one '*' per byte of each match, exactly when the filter censors |
| MessageFilters.CensorEach | pkg/message_filters.go:52-60 | the loop over one phrase's matches: each censored in turn when the filter censors, the text untouched otherwise |
| MessageFilters.FirstFilter | pkg/message_filters.go:43-68 | returns the first enabled filter with a match (or none) and the message that filter leaves, censored byte for byte when it censors |
| MessageFilters.PushContext | pkg/message_filters.go:27-41 | a DM is pushed under the DM key, a public message under its channel |
| MessageFilters.FilterMessage | pkg/message_filters.go:26-68 | the raw message is pushed onto its context; a DM with an admin on either side is never filtered; otherwise the first enabled matching filter is returned and the message censored, one '*' per byte of each match, when it censors |
| MessageFilters.FilteredKeepsLength | pkg/message_filters.go:45-68 | filtering changes only the message text and keeps its UTF-8 byte length; each character is kept or replaced by one '*' per byte |
| EchoMessages.WithoutID | pkg/echo_messages.go:103-111 | the buffer keeps exactly the messages with other IDs, in order |
| EchoMessages.WithoutOnly | pkg/echo_messages.go:109 | with the ID only at `k`, removing the ID is splicing out position `k` |
| EchoMessages.WithoutAbsent | pkg/echo_messages.go:104-105 | a buffer without the ID is unchanged |
| EchoMessages.WithoutTwice | pkg/echo_messages.go:95-113 | taking back an ID twice is taking it back once |
| EchoMessages.SpliceOut | pkg/echo_messages.go:104-111 | the range-and-append loop over one buffer, with its shifting backing array, never panics on unique IDs and removes exactly the ID's message |
| EchoMessages.Unhidden | pkg/echo_messages.go:44-50 | keeps exactly the messages whose author is not blocked or muted |
| EchoMessages.GatheredMembers | pkg/echo_messages.go:27-61 | a user is echoed exactly the buffered messages of the visited channels whose author they neither block nor mute |
| EchoMessages.PushedIsNewest | pkg/echo_messages.go:83-90 | a buffer fed by pushes holds the newest window-size messages, in order |
| EchoMessages.BoundedAfterPush | pkg/echo_messages.go:67-91 | storing a buffer within its channel's window keeps every buffer bounded |
| EchoMessages.EchoBuffers.constructor | pkg/echo_messages.go:20-23 | the echo map starts empty |
| EchoMessages.EchoBuffers.PushPublicMessage | pkg/echo_messages.go:67-91 | an unconfigured channel changes nothing; otherwise the timestamped message is appended and the channel keeps its newest window-size messages; buffers stay bounded |
| EchoMessages.EchoBuffers.TakebackMessage | pkg/echo_messages.go:95-113 | with unique IDs nothing panics and the message is removed from the buffer of every configured public channel |
| EchoMessages.EchoBuffers.EchoesFor | pkg/echo_messages.go:27-61 | for a visiting order that lists each buffered channel once (the map's range order, an input), the echoes are the buffered messages channel by channel in that order, minus the authors the user blocks or mutes |
| EchoMessages.UniqueKept | pkg/echo_messages.go:109 | removing an ID keeps the IDs unique |
| EchoMessages.TakenBackUnique | pkg/echo_messages.go:103-112 | the takeback loop keeps every buffer's IDs unique |
| EchoMessages.TakenBackEffect | pkg/echo_messages.go:103-112 | the same channels keep buffers; a visited channel loses the ID, others are untouched |
| EchoMessages.TakenBackAt | pkg/echo_messages.go:103-112 | one buffer is taken back once if its channel was visited, untouched otherwise |
| EchoMessages.TakebackRemovesEverywhere | pkg/echo_messages.go:95-113 | a takeback removes the message from the buffer of every configured channel, keeps the rest in order, and leaves other buffers alone |
| BotHandlers.AsWrittenMissesEmoji | client/handlers.go:283-290 | as spelled, no reaction shorter than four characters counts as negative, so a real one-character emoji is never skipped |
| BotHandlers.NegativeEmojiCaught | client/handlers.go:283-290 | with the intended emoji list, a reaction containing a listed emoji is always negative |
| BotHandlers.React | client/handlers.go:298-309 | the reaction is new iff it was not logged for that message; afterwards it is logged, other messages' logs are unchanged and nothing is forgotten |
| BotHandlers.ReactOnce | client/handlers.go:304-306 | the same reaction to the same message a second time is a repeat and leaves the log unchanged |
| BotHandlers.GreetStep | client/handlers.go:336-355 | one join no earlier than the greetings so far keeps greetings spaced by the cooldowns |
| BotHandlers.Greet | client/handlers.go:338-355 | greets iff the global cooldown has passed and the user's own has passed or the greeting is forced; passing the global cooldown restarts it even when the user's check then refuses; a greeting restarts the user's cooldown and a refusal leaves every user's untouched |
| BotHandlers.ForceGreeting | client/handlers.go:336 | a greeting is forced before any lobby message, and afterwards iff the lobby has been quiet for more than the threshold |
| BotHandlers.GreetingsSpaced | client/handlers.go:325-381 | over any run of joins in time order from the initial state, greetings are at least the global cooldown apart and a user is re-greeted within the user cooldown only when forced |
| BotHandlers.Bot.constructor | client/handlers.go:77-121 | the handler state starts empty |
| BotHandlers.Bot.OnWho | client/handlers.go:124-129 | the who list becomes the received one and nothing else changes |
| BotHandlers.Bot.CacheMessage | client/handlers.go:147-156 | the message is appended and the buffer keeps only its newest 500 messages |
| BotHandlers.Bot.GetMessageByID | client/handlers.go:159-169 | found iff some buffered message has the ID, and then it is the first such; otherwise an empty message |
| BotHandlers.Bot.OnMessage | client/handlers.go:172-188 | the bot's own message changes nothing; another's is cached with its HTML stripped and a lobby message records the time |
| BotHandlers.Bot.OnReact | client/handlers.go:274-322 | with the negative-emoji list corrected (see Findings): the bot's own, negative or unseen reactions change nothing; otherwise the reaction is logged, and echoed only when new and the roll is above 50 |
| BotHandlers.Bot.OnPresence | client/handlers.go:325-381 | only another user's join is considered; the cooldowns decide, the user must still be online, the brain gets the user's variables (no users online when forced) and its reply is sent to the lobby unless it errs or says not to reply |
| Chatbot.NoReply | client/chatbot.go:66-69 | true iff the reply carries `<noreply>` or is only white space in Go's Unicode sense (`unicode.IsSpace`, as strings.TrimSpace uses it) |
| Common.TrimSpaceIdempotent | pkg/pages.go:247-263 | trimming white space twice is trimming it once, so the trimmed address compared against trimmed ban-list lines is stable |
| Chatbot.GetUser | client/chatbot.go:55-64 | none iff no who-list entry has the username; otherwise the first entry that has it |
| Chatbot.SetUserVariables | client/chatbot.go:23-52 | the user count is the who list's length; `name` is the non-empty nickname or the username; `isAdmin` is "true" iff the who list marks an operator; `messageID` is the ID in decimal |
| ClientUtils.WebSocketURL | client/utils.go:23-39 | a parse error is passed on and any scheme but the four known ones refused; https gives `wss://host/ws`, http `ws://host/ws`, and ws and wss are written without the colon, `ws//host/ws` and `wss//host/ws` |
| ClientUtils.SchemeSeparators | client/utils.go:29-35 | https gives "wss://host/ws" but wss gives "wss//host/ws", so the two differ |
| ClientUtils.WebSocketURLShape | client/utils.go:23-39 | every address built ends with the host and "/ws"; https and wss give one starting "wss", http and ws one starting "ws" but not "wss" |
| ClientUtils.Framed | client/utils.go:29-35 | an address assembled as prefix, host and "/ws" keeps the scheme text in front and the host and "/ws" at the end |
| StatusMessage.FlattenMembers | src/lib/StatusMessage.js:126-134 | an option is in the flattened list iff some category holds it |
| StatusMessage.Flatten | src/lib/StatusMessage.js:126-134 | every flattened option comes from some category (the converse: FlattenMembers) |
| StatusMessage.ByName | src/lib/StatusMessage.js:137-143 | a name is indexed iff some option has it |
| StatusMessage.ByNameFinds | src/lib/StatusMessage.js:137-143 | with unique names every option is found under its own name |
| StatusMessage.TableNamesInOrder | src/lib/StatusMessage.js:2-123 | the flattened table lists the seventeen status names in table order |
| StatusMessage.GroupNames | src/lib/StatusMessage.js:2-123 | the Status category has thirteen options and the Mood category four, with those names |
| StatusMessage.TableNamesUnique | src/lib/StatusMessage.js:2-123 | no two options of the table share a name |
| StatusMessage.ShownOptions | src/lib/StatusMessage.js:170-177 | keeps exactly the options not ruled out as hidden (unless current), admin-only for a non-admin, or NSFW when NSFW is off |
| StatusMessage.ShownKeepsAll | src/lib/StatusMessage.js:170-177 | when nothing is ruled out the filter returns the options unchanged, in order |
| StatusMessage.IterSelectOptions | src/lib/StatusMessage.js:162-183 | an unknown category gives nothing; otherwise the shown options of the first category with that name |
| StatusMessage.GetStatus | src/lib/StatusMessage.js:186-197 | a registered name gives its option; any other gives a placeholder carrying the name as name and label |
| StatusMessage.GetStatusFindsTable | src/lib/StatusMessage.js:186-189 | every option of the table is what the lookup returns for its name |
| StatusMessage.GetStatusUnknown | src/lib/StatusMessage.js:191-197 | a name outside the table gets the placeholder |
| LocalStorage.LoadedSettings | src/lib/LocalStorage.js:28-47 | a load succeeds iff every stored setting of the key table is JSON text, and then holds exactly the stored supported keys, each parsed |
| LocalStorage.UserSettings.constructor | src/lib/LocalStorage.js:28-47 | the load throws iff some stored supported setting is not JSON text; otherwise the object holds the loaded settings |
| LocalStorage.UserSettings.Assign | src/lib/LocalStorage.js:33-42 | the switch falls through every case, so JSON.parse decides the value whatever the key's kind |
| LocalStorage.UserSettings.LoadIsValid | src/lib/LocalStorage.js:28-47 | after a load that did not throw every supported stored key is on the object as the parse of its stored text |
| LocalStorage.UserSettings.Get | src/lib/LocalStorage.js:62-64 | the value on the object if there is one, else undefined |
| LocalStorage.UserSettings.GetSettings | src/lib/LocalStorage.js:51-59 | exactly the supported keys whose value on the object is neither undefined nor null (`!= undefined`), with their values |
| LocalStorage.UserSettings.Set | src/lib/LocalStorage.js:67-74 | throws and changes nothing iff the key is neither in the key table nor a name the table inherits from Object.prototype; otherwise the stringified value (null for NaN) is stored and the value set on the object |
| LocalStorage.ReloadRoundTrip | src/lib/LocalStorage.js:28-74 | a value that was set comes back on the next load, except NaN, which JSON.stringify writes as null and so comes back as null |
| LocalStorage.UnlistedKeys | src/lib/LocalStorage.js:2-24 | "videoExplicit", "videoNonExplicit", "rememberExpresslyClosed", "autoMuteWebcams" and "videoAutoShare" are not in the key table, so setting them throws |
| Api.CorsOrigin | pkg/api.go:24-36 | the Origin is echoed iff it is non-empty and listed among the CORS hosts |
| Api.StatsFacts | pkg/api.go:49-69 | UserCount counts every logged-in, non-hidden session; Usernames lists each such name once; the cameras counted are at most one per name |
| Api.StatsCameraColour | pkg/api.go:60-67 | a name's first counted session adds a red camera when it is on and NSFW, a blue one when on and not NSFW, none when off |
| Api.Statistics | pkg/api.go:22-76 | the result is the count over the online sessions |
| Api.BlocklistCache.constructor | pkg/api.go:1007-1015 | the cache starts empty |
| Api.BlocklistCache.GetCachedBlocklist | pkg/api.go:1018-1027 | the last list stored for the user, or the empty list |
| Api.BlocklistCache.SetCachedBlocklist | pkg/api.go:1030-1035 | the user's list is replaced by the new one |
| Api.LastStoredOthers | pkg/api.go:1030-1035 | storing a list for one user leaves every other user's list as it was |
| Api.Others | pkg/api.go:437-440 | the other listed names, never the user's own |
| Api.FirstNamedByNames | pkg/subscriber.go:277-284 | looking up a session depends on nothing but the usernames |
| Api.BlockOthers | pkg/api.go:437-457 | the session mutes and blocks every other listed name and gets a block notice for each |
| Api.BlockStep | pkg/api.go:435-459 | walking one more online name adds its other names to its session only |
| Api.AnyBlocksSome | pkg/api.go:449 | some block was added iff some listed name is online and the list has another name |
| Api.BlockOne | pkg/api.go:436-458 | one pass of the loop adds the listed user's blocks and says whether any were added |
| Api.BlockNow | pkg/api.go:377-470 | a wrong key changes nothing and sends nothing; otherwise every online listed user mutes and blocks every other listed name, nobody else changes, each block sends its notice in list order, and the Who List is sent iff some block was added |
| Api.Disconnect | pkg/api.go:561-582 | the presence broadcast (kicked or exited), the custom message when given, the kick, and the session loses its login and its name |
| Api.DisconnectNow | pkg/api.go:548-596 | a wrong key answers "Authentication denied.", counts 0, sends nothing and changes no session; otherwise, for a list without repeats or the empty name, `removed` is the number of listed names online, the sends are DisconnectSends in list order followed by every session's Who List exactly when `removed` is positive, the first session of each online listed name is logged out and renamed "", and every other session keeps its name and login |
| Api.DisconnectAll | pkg/api.go:557-586 | for a list without repeats or the empty name: the count is the number of listed names online, the sends are DisconnectSends (per online name in list order: its presence broadcast to the sessions not yet logged out, the custom message, the kick), the sessions reached are logged out and renamed "", and the others are untouched |
| Api.DisconnectOne | pkg/api.go:560-585 | one pass: a session is found exactly when GetSubscriber finds one; on a list without repeats or the empty name, exactly when the name is online, its sends are that name's share of DisconnectSends, and only that session is logged out |
| Api.DisconnectStep | pkg/api.go:560-582 | the session found for the next name is the first of that name before the call and not yet logged out, handling it logs out exactly it, and Disconnect's sends for it are the name's share of DisconnectSends |
| Api.SkipLoggedOut | pkg/api.go:566-570 | leaving out sessions that are already logged out does not change a broadcast, because it skips sessions that are not logged in |
| Api.DisconnectFinds | pkg/api.go:559-560 | sessions already renamed to "" do not change whom the next name finds |
| Pages.Split | pkg/pages.go:260 | strings.Split on "\n" never gives an empty list |
| Pages.SplitPieces | pkg/pages.go:260 | no piece holds a line break |
| Pages.JoinSplit | pkg/pages.go:260-268 | joining the pieces with "\n" gives the text back |
| Pages.SplitAppend | pkg/pages.go:193-198 | appending a line and a break completes the text's last piece with the line |
| Pages.SplitJoin | pkg/pages.go:260-268 | splitting break-free lines joined with "\n" gives the lines back |
| Pages.AddBan | pkg/pages.go:181-213 | an empty address or nick is refused with "IP o nick vacío"; otherwise the line names the nick and then the address after "IP: ", ending with a break |
| Pages.AddBan2 | pkg/pages.go:215-239 | an empty address is refused with "IP vacía"; otherwise the line is the address and a break |
| Pages.IsIPBanned | pkg/pages.go:279-302 | banned iff both lists can be read, some line of the first contains "IP: <ip>" and some trimmed line of the second is the address |
| Pages.FirstListAfterBan | pkg/pages.go:181-213 | after AddBanAPI appends to a file ending with a break, the address is in the first list |
| Pages.SecondListAfterBan | pkg/pages.go:215-239 | after AddBanAPI2 appends to a file ending with a break, the address is in the second list |
| Pages.FirstListPrefixMatch | pkg/pages.go:285 | a ban of a longer address also matches every address it starts with |
| Pages.Unbanned | pkg/pages.go:260-266 | the kept lines are never more than the lines |
| Pages.UnbannedMembers | pkg/pages.go:262-266 | a line is kept iff it is in the list and is not the address once trimmed |
| Pages.UnbannedKeepsAll | pkg/pages.go:262-266 | a list without the address loses nothing |
| Pages.UnbanAPI | pkg/pages.go:241-277 | an empty trimmed address is refused; a read error is reported; otherwise the second list is written back without the address's lines, with a write error or the success text as the answer |
| Pages.KeepLines | pkg/pages.go:261-266 | the loop keeps exactly the lines that are not the address, in order |
| Pages.UnbanRemoves | pkg/pages.go:241-277 | after an unban the address is not in the second list, so it is not banned |
| Pages.UnbanKeepsOthers | pkg/pages.go:262-266 | an unban keeps every other address of the second list |
| Pages.UnbanKeepsLine | pkg/pages.go:262-266 | a line whose trimmed text is not the address survives the rewrite of the second list |
| LogFiles.IsLoggingUsername | pkg/logging.go:16-34 | false when logging is off or there is no session; otherwise a session already logging stays logging, and one not yet logging starts iff its name is configured |
| LogFiles.LoggingIsSticky | pkg/logging.go:22-24 | a logging session keeps logging while logging is enabled, even when its name leaves the list |
| LogFiles.LoggingStarts | pkg/logging.go:27-33 | a session not yet logging starts exactly when logging is enabled and its name is listed |
| LogFiles.IsLoggingChannel | pkg/logging.go:37-48 | true iff logging is enabled and the channel is listed |
| LogFiles.JoinSnoc | pkg/logging.go:114-117 | joining with one more part puts the separator and the part at the end |
| LogFiles.DirectMessageLogName | pkg/logging.go:107-117 | a user's DM log with another user is `<directory>/@<user>/<other>.txt` |
| LogFiles.ChannelLogName | pkg/logging.go:107-117 | a channel's log is `<directory>/<channel>.txt` |
| LogFiles.LogFileName | pkg/logging.go:107-117 | the file name starts with the directory and a slash and ends with a slash, the last component and ".txt" |
| LogFiles.LogCache.constructor | pkg/logging.go:104-105 | the file cache starts empty |
| LogFiles.InitLogFile | pkg/logging.go:103-137 | a file already open under the last component is returned without reopening; a mkdir or open failure is returned and nothing cached; otherwise the file named from the directory and components is cached and returned |
| LogFiles.LogMessage | pkg/logging.go:51-71 | nothing for a missing or non-logging session; otherwise the "time [sender] message" line is written exactly when the log with the other user is already open or the directory and file can be created; a handle already open is reused, a new one is cached under the other user's name, and a failure caches nothing |
| IPAddress.BeforeComma | pkg/util/ip_address.go:20 | the text before the first comma, or all of it |
| IPAddress.Address | pkg/util/ip_address.go:14-29 | behind a trusted proxy a non-empty X-Real-IP wins, then the first entry of a non-empty X-Forwarded-For; otherwise the host part of the remote address, or the whole remote address when it cannot be split |
| IPAddress.HeadersIgnored | pkg/util/ip_address.go:15 | with the proxy setting off, the headers are never consulted |
| IPAddress.FirstForwarded | pkg/util/ip_address.go:19-21 | a chain "client, proxies" gives the client |
| IPAddress.SingleForwarded | pkg/util/ip_address.go:19-21 | without a comma the whole header is the address |
| Webhooks.WebhookEnabled | pkg/webhooks.go:21-28 | true iff some entry with the name is enabled |
| Webhooks.GetWebhook | pkg/webhooks.go:31-39 | not found iff no entry has the name, then the zero entry; otherwise the first entry with the name |
| Webhooks.EnabledIsFound | pkg/webhooks.go:21-39 | an enabled webhook is always found by name |
| Webhooks.PostWebhookTarget | pkg/webhooks.go:44-50 | an unconfigured name and a disabled first entry are refused with their unformatted messages; otherwise the enabled entry with the name is posted to |
| Webhooks.PostedOnlyWhenEnabled | pkg/webhooks.go:44-50 | a post gets past the checks only for an enabled webhook |
| Webhooks.EnabledButRefused | pkg/webhooks.go:21-50 | a disabled first entry hides an enabled second one of the same name: enabled, yet the post is refused |
| Webhooks.DefaultReportDisabled | pkg/config/config.go:181-190 | with the default configuration the report webhook is configured but disabled, so posts are refused |

## Left out

- The fields Config.Channel.echoMessagesOnJoin, Config.ModerationRule.noVideo and Config.ModerationRule.noBroadcast: the code reads or sets them (pkg/echo_messages.go:88-89, pkg/moderation_rules.go:28-31), but the Channel and ModerationRule structs of pkg/config/config.go:98-107 and 125-129 do not declare them. The model follows the code and declares them.
- Config.Channel.echoMessagesOnJoin is a `nat`. A negative window in Go would make the slice at pkg/echo_messages.go:89 start past the end and panic; that panic is not modelled.
- Browser and media APIs (RTCPeerConnection, getUserMedia, the DOM, sounds, modals): peer connections, streams and timers are opaque numbers, and SDP/ICE payloads opaque strings handed on unchanged.
- Timers (debounce, open watchdog, freeze detection): the arming and clearing of a timer is recorded; its firing later is not modelled, and times are explicit parameters.
- Dark-video detection and the video volume setter: they read canvas pixels and divide floats.
- Go concurrency: mutexes (except the read lock of /kickall, see Findings), goroutines and the send queue; a send is an outbound `Send` event in the order it is made, and the chatbot's delayed replies are sent at once.
- Go map iteration order: the server's subscriber map is a sequence, and the channel order of SendEchoedMessages is an input.
- SQL, HTTP and file I/O: the DM table is a sequence of rows and ban files are their text; other SQL errors, request decoding, JSON encoding and the webhook's HTTP request are outside the model.
- Regular expressions: the matches of a filter phrase are an input function, and StripHTML and AtMentioned in client/utils.go are not modelled.
- Foreign libraries: shell-style word splitting, net/url parsing, net.SplitHostPort and the RiveScript brain come in as their results; JWT parsing and signing are not modelled.
- Randomness: the secret of an open and the chatbot's coin flip are parameters.
- VideoStatus: the low 8 bits of the Go int and JS number (`bv8`); every defined flag lives there and higher bits are never set by the modelled code.
- The Invited video flag is read by src/lib/WebRTC.js but is defined in no file of this snapshot, so it is a separate boolean on the who-list row.
- The NoDarkVideo moderation flag: its JWT predicate is defined in no file of this snapshot, so the rule merge does not carry it.
- /ban's duration: it is parsed but never used by the ban itself.
- PaginateUsernames: only the offset, sort key and page-count arithmetic are modelled, not the SQL query it feeds.
- PaginateDirectMessages: the timestamp formatting of each row is not modelled.
- LogChannel, the log file writes and the log teardown: file output only.
- The admin pages' templates, GetBansAPI and the user search endpoint: HTTP and template output only.
- StatusMessage's `offline()` helper and option-group iterator: constant data for the UI.
- Api.DisconnectNow: the removed count, the exact sends and the per-user outcome are stated for lists without repeats and without the empty name. With a repeat, the second lookup finds the next session of that name or none. The empty name can find a session that an earlier name already renamed to "". Both cases verify, but their outcome is not stated (DisconnectAll and DisconnectOne likewise).
- EchoMessages.EchoBuffers.TakebackMessage: the outcome is stated for buffers whose message IDs are unique, as NextMessageID makes them; with duplicate IDs nothing is stated.
- EchoMessages.SpliceOut: stated for buffers with unique message IDs only, for the same reason.
- DirectMessages.RemainingCountsOlderRows: stated for tables whose message IDs are positive, as NextMessageID makes them.
- DirectMessages.ClearsExactlyParticipants: stated for usernames without a colon, which a DM channel ID cannot separate otherwise.
- LocalStorage.Parse: JSON text is abstracted as a stored value or other text; of JSON.stringify only its writing NaN as null is modelled (LocalStorage.Parse and LocalStorage.ParseStringify carry no row for that reason).
- LocalStorage.UserSettings.Get: for a name the key table inherits from Object.prototype (such as "constructor") JavaScript returns an inherited function; the model returns undefined.
- LocalStorage.UserSettings.Set: setting `__proto__` replaces the object's prototype in JavaScript, which the model does not capture.
- StatusMessage.GetStatus: a name inherited from Object.prototype (such as "constructor") finds an inherited member in JavaScript rather than the placeholder; the model gives the placeholder.
- StatusMessage.GetStatusUnknown: stated for names outside the table, including the names JavaScript finds on Object.prototype, for which the program's lookup is not unknown.
- Commands.KickAllCommand: pkg/commands.go:138 calls IterSubscribers(true) while pkg/subscriber.go:309 declares it without parameters; the model follows the declaration.
- Pages.FirstListAfterBan: holds only when the working directory is the executable's directory, since the ban list is written beside the executable (pkg/pages.go:194-200) and read back from the working directory (pkg/pages.go:283).
- RenderMarkdown of the /help text and of the /kick and /ban usage texts (pkg/commands.go:55, 84, 150): the raw Markdown is sent.
- The Who List fields LoginAt, Avatar, ProfileURL, Emoji and Gender (pkg/messages/messages.go:107-122, pkg/subscriber.go:472-504): profile data the model drops.
- WebRtcClient.WebRtcState.UnWatchNonExplicitVideo: after a throw, the partial state left behind depends on the key order of the streams object and is stated only as the removals made so far.
- Common.TrimSpace: works on characters; Go's handling of invalid UTF-8 bytes is not modelled.

## Findings

| source | as written | input that shows it | evidently intended | confidence | as-written member | corrected member |
|---|---|---|---|---|---|---|
| src/lib/WebRTC.js:1885-1886 | growing the video size clamps the index to the length of the current scale string minus one | size "x4", grow: the index clamps to 1 and the size becomes "x1" | clamp to the last option, so "x4" stays "x4" | high, not executed | WebRtcClient.ScaleVideoSizeWrapsAtLargest | WebRtcClient.ScaleVideoSizeStaysAtLargest |
| web/static/js/BareRTC.js:2337 | the suffix is "pm" from hour 11 | 11:30 in the morning prints "11:30 pm", the same as 23:30 | "pm" from hour 12 | high, not executed | LegacyClient.PrettyDateElevenAmIsPm | LegacyClient.PrettyPartsInjective |
| pkg/commands.go:39-42 | after sending the usage text for a bare "/nsfw" the handler goes on to read the second word | an operator sends "/nsfw": words[1] is out of range and the handler panics | return after the usage text | high, not executed | Commands.NsfwWithoutNamePanics | Commands.NsfwCommand |
| pkg/subscriber.go:483 | an admin viewer's masked camera XORs the MutualOpen flag | a booted admin viewing camera status 1 (Active) sees 33, Active and MutualOpen | clear MutualOpen, leaving 1 | medium, not executed | Server.MaskedVideoAsWrittenSetsMutualOpen | Server.MaskedVideoForAdmin |
| pkg/models/direct_messages.go:91-93 | the LIKE patterns are built from the raw username, so `_` and `%` are wildcards | clearing user "a_c" also deletes the conversation "@abc:@zed" | match the username literally | medium, not executed | DirectMessages.ClearOverreachesOnUnderscore | DirectMessages.ClearMessages |
| client/handlers.go:283-290 | the negative-emoji list holds mis-encoded strings of four or more characters | a reaction of the one-character emoji U+1F922 is not recognised as negative | the list holds the emoji themselves | medium, not executed | BotHandlers.AsWrittenMissesEmoji | BotHandlers.NegativeEmojiCaught |
| pkg/commands.go:136-144 | /kickall deletes each authenticated session while holding the subscribers' read lock, and DeleteSubscriber takes the write lock (pkg/subscriber.go:303) | an operator sends /kickall while any session is authenticated: the write lock waits on the read lock forever | release the read lock before deleting, or delete over a snapshot of the sessions | high, not executed | Commands.KickAllAsWrittenDeadlocks | Commands.KickLoopUnlocked |
