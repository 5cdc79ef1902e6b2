# Discordia: a verified model of the agent, the text codecs, the media pipeline and the client's workers

Discordia is a self-hosted chat system. This project models, in Dafny, the parts of it whose
correctness spans many calls, and proves what they promise over whole runs and for every input.

- **The spending ledger** (`Limits.dfy`, `LedgerRuns.dfy`, `Budgets.dfy`, `Overruns.dfy`). The ledger keeps pruned deques and running
  counters. Its reference is the history of all calls: each decision is defined on the history, and the
  class proves that its small state always gives that decision. Limits over runs are proved on histories, with
  runs that reach them.
- **The agent's run loop** (`Runner.dfy`, `LateGuilds.dfy`). Each admitted trigger carries a ticket, its number in the
  ledger's history. The loop's invariant says that every ticket is waiting or was dispatched, once in all,
  and that the ledger counts exactly the tickets that wait or run. Results of the model call, the gateway
  and the clock are parameters; the order of a hash map's keys is left open.
- **Prompts and replies** (`Context.dfy`, `Split.dfy`, `Text.dfy`). History is cut to a budget and merged
  into alternating turns; replies are cut into messages. Strings are Unicode scalar values with their UTF-8 lengths.
- **Templates, emoji, bundles** (`I18n.dfy`, `Emoji.dfy`, `Bundle.dfy`). A printer and parser over one template
  language, a shortcode scanner with a position-wise specification, and zip unpacking with a bound.
- **Encrypted frames** (`Frames.dfy`). The frame layout of the bundled worker with emulation prevention, under an
  ideal cipher.
- **Signal loops** (`Limiters.dfy`, `References.dfy`, `Denoise.dfy`). Constant-memory loops proved equal to
  quantities defined on the whole input. Samples are real numbers.
- **Workers** (`Preview.dfy`, `KeyRing.dfy`, `Updater.dfy`). State machines whose methods are the steps; the
  invariant holds in every interleaving.

A class keeps its source's fields; its ghost fields hold the history the promises are about. Methods are proved
against functions and predicates on those histories, and the lemmas prove what the source promises about them.

## What the code does not do

- A guild can be charged past its ceiling. The runner looks the guild of a channel up once when it admits
  (`agent/src/runner.rs:276`) and again when it dispatches (`agent/src/runner.rs:311`), so a reply can be charged to a
  guild whose share was never asked. `Budgets.Overspend` adds exactly what strayed to that guild on that date;
  `Overruns.GuildMaximum` gives the exact most a guild can be charged when so many tokens stray, for all limits;
  `Overruns.CeilingTolerates` says when that is still its ceiling; `Budgets.GuildCanPassItsCeiling` for which limits the
  ceiling can be passed at all; and `LateGuilds.PassTheCeiling` is a run of the agent that does so under every such
  limit. A guild to which no dispatch has drifted keeps its ceiling (`Runner.AgentOverspend`), whatever happens to others.
- A guild can spend more than it is charged. The server passes a connected bot no list of the channels of a guild that
  installs it then (`server/src/gateway/connection.rs:4017`), so the agent learns such a channel only when a
  ChannelCreate or ChannelUpdate names it, the first of which is sent after the bot can already see the channel
  (`server/src/gateway/connection.rs:3638`). Until then its replies are charged to nobody, and one that still
  waits when the name comes is charged late. `Overruns.SpendingInGuild` bounds what is spent in a guild's
  channels by its ceiling and what the agent did not see as the guild's; `Overruns.UnknownGuildSpendsTheDay` shows that
  a guild it never learns can use up the whole day.
- A reply split into zero parts is dropped without an ellipsis, and a limit of three bytes yields an empty part for a
  four-byte character (`Split.ThreeBytesAreTooFew`); no part is ever empty exactly from four bytes on
  (`Split.FourBytesAreNeeded`). Neither happens in this
  program: its callers pass 2000 bytes and four parts or one (`agent/src/runner.rs:385`, `agent/src/runner.rs:398`).
- `Capture` does not undo `Interpolate` for adjacent placeholders with a non-empty second value, nor when a value
  contains the literal that follows it. `I18n.CaptureUndoesInterpolate` gives the exact condition.
- When a frame's first decryption attempt fails, the frame has already been unescaped in place, and each attempt with a
  ratcheted key unescapes it again. `Frames.RatchetRecovers` proves for which payloads the right key still recovers
  the frame, and `Frames.RatchetCanLose` that others exist. The worker retries only under a positive
  `ratchetWindowSize`. This program's provider (`client/src/features/screenshare.rs:428`) fixes it at zero in its
  constructor (`client/assets/livekit-client.umd.js:1`), so here the first attempt is the only one.
- The pieces of a message do not always give it back. `Emoji.PiecesGiveTheMessageBack` proves that they do if and only
  if no colon closes one code and opens the next; `Emoji.PiecesForgetSharedColons` is the smallest example.
- A rekey adds one to the epoch until the 32-bit counter is full, and then repeats the highest
  (`client/src/mediakey.rs:401`). From there on each new key takes the slot of the one before, so that key is gone at
  once, while the keys of lower epochs stay. `KeyRing.KeyRemainsExactly` gives the exact condition, and
  `KeyRing.RekeyAtTheTop` a run that shows both sides of it.
- A frame shorter than its clear header is not dropped: the worker reads the header before its `try`, so the call is
  rejected (`Frames.EncodeFrame`).
- Abandoning an installation's session can fail unnoticed (`client/android/DioxusUpdater.kt:150`), which leaves it
  live. `Updater.OneOfEach` accounts for every live session: the one held, or one that could not be abandoned.

## Model

| member | source | states |
|---|---|---|
| `Limits.Ledger.Roll` | agent/src/limits.rs:57-65 | a new date restarts the counters and forgets budget notices, and nothing else |
| `Limits.Ledger.Prune` | agent/src/limits.rs:75-81 | the pruned deque counts exactly the member's past admissions younger than an hour |
| `Limits.Ledger.Admit` | agent/src/limits.rs:67-111 | the verdict, with its notice, is the one the full history gives under a monotone clock |
| `Limits.Ledger.Finish` | agent/src/limits.rs:113-121 | the counters stay those of the history when a reply is charged |
| `Limits.PrunedCount` | agent/src/limits.rs:75-81 | dropping hour-old admissions from the front loses no recent one |
| `Limits.AdmissionsInOrder` | agent/src/limits.rs:104 | a member's admissions are in time order, none later than the clock |
| `LedgerRuns.HourlyCap` | agent/src/limits.rs:75-106 | any hour whatever holds at most the hourly count of a member's admissions |
| `Budgets.Overspend` | agent/src/limits.rs:82-121 | tokens charged on a date, to all or to a guild, plus what open replies may cost, never pass the ceiling and what strayed to the guild that day, across day rolls, for every balanced run |
| `Budgets.OverspendIsReached` | agent/src/limits.rs:86-121 | for all limits that admit anyone some run charges all that the bound allows, up to the width of the counter |
| `Budgets.CeilingNeedsNoStrays` | agent/src/limits.rs:86-121 | while the day's budget leaves room, the guild's ceiling holds for the runs with a given number of strayed tokens if and only if it is zero |
| `Budgets.GuildCanPassItsCeiling` | agent/src/limits.rs:86-121 | a guild can pass its ceiling exactly under limits that admit anyone and have the guild's share below the day's budget |
| `Overruns.GuildMaximum` | agent/src/limits.rs:86-121 | for all limits, the exact most a guild can be charged on a day when at most so many tokens stray to it |
| `Overruns.CeilingTolerates` | agent/src/limits.rs:86-121 | the guild's ceiling survives so many strayed tokens if and only if they are none, or its share is no tighter than the day's, or they and the room between the budgets fit in one reply |
| `Overruns.SpendingInGuild` | agent/src/runner.rs:271-315 | what is spent in a guild's channels passes its ceiling by no more than what was not both admitted for and charged to it |
| `Overruns.UnknownGuildSpendsTheDay` | agent/src/runner.rs:276 | a guild whose channels are never learned can use up the day's ceiling and is charged nothing |
| `LateGuilds.PassTheCeiling` | agent/src/runner.rs:266-315 | under all those limits the agent itself has a run that charges a guild past its ceiling, by asking, learning the guild, and only then running and ending |
| `LedgerRuns.InFlightIsOpen` | agent/src/limits.rs:97-114 | the in-flight counter is the number of open admissions, never saturates and stays within its cap |
| `LedgerRuns.FinishedOnce` | agent/src/runner.rs:83-92 | no admission is finished twice |
| `LedgerRuns.SharesWithinTotal` | agent/src/limits.rs:113-121 | the guilds' shares never add up to more than the total unless that has saturated |
| `LedgerRuns.ChargedIsDayTotal` | agent/src/limits.rs:57-65 | with dates in order the counter is the day's total over the whole run |
| `LedgerRuns.NotifyExactly` | agent/src/limits.rs:57-65 | a refusal is told exactly when every earlier one of its kind was cleared by an admission or, for a budget, a change of date |
| `LedgerRuns.ToldMeans` | agent/src/limits.rs:102-109 | what it means that a member has been told |
| `LedgerRuns.VerdictMeans` | agent/src/limits.rs:86-103 | somebody is admitted exactly when neither budget, nor the member's hour, nor the slots stand against it; a reason given is the first of these, in this order, that does |
| `Runner.Agent.OnMessage` | agent/src/runner.rs:195-198 | the ledger is asked exactly for a non-blank message of a permitted person, not a bot, that names or answers the agent; everything else is passed over |
| `Runner.Agent.OnCommand` | agent/src/runner.rs:199-231 | a command is turned away with a reason, or put to the ledger |
| `Runner.Agent.Start` | agent/src/runner.rs:266-297 | an admitted trigger gets a fresh ticket and joins its channel's list; a refusal changes no list |
| `Runner.Agent.OnHistory` | agent/src/runner.rs:227-234 | one task for each waiting trigger of the channel, in order, with that history |
| `Runner.Agent.Dispatch` | agent/src/runner.rs:299-324 | a ticket in hand becomes one task; a change of guild is noted |
| `Runner.Agent.Sweep` | agent/src/runner.rs:327-336 | late entries leave their lists, fresh ones stay, no ticket is lost, for any order of the lists |
| `Runner.Agent.OnTick` | agent/src/runner.rs:326-356 | nothing that waits is too old afterwards, late triggers run without history, typing shows where an answer is due |
| `Runner.Agent.OnJoined` | agent/src/runner.rs:82-93 | a task's end closes its own admission, is charged what its result cost, and delivers its text, or says that the model declined or was not reached |
| `Runner.NothingIsLost` | agent/src/runner.rs:76-97 | whenever the loop waits, the in-flight count is the waiting triggers plus the live tasks, within the cap, and each ticket is in one place |
| `Runner.AgentOverspend` | agent/src/runner.rs:358-365 | the overspend bound for every run of the agent, date and guild; nothing strays to a guild that no dispatch drifted to |
| `Runner.NoDriftNoStray` | agent/src/runner.rs:299-315 | tokens stray to a guild only by a dispatch under that guild for a trigger admitted under another |
| `Runner.Asking` | agent/src/runner.rs:274-296 | an admission makes one more ticket idle, a refusal moves none |
| `Runner.Dispatching` | agent/src/runner.rs:299-324 | dispatching keeps every ticket in exactly one place |
| `Runner.Joining` | agent/src/runner.rs:82-93 | a task's end keeps the placement, and its counter step cannot saturate |
| `Runner.PartitionTickets` | agent/src/runner.rs:330-335 | the split by age keeps every ticket |
| `Runner.SpokenDelivers` | agent/src/runner.rs:376-402 | a reply's messages hold all of its text in order, or a beginning and a sign of more; they are addressed to who asked, few, non-empty and within the limit; a short reply is one message as it is, and only a blank one is not sent |
| `Runner.AnnouncedMeans` | agent/src/runner.rs:274-290 | who is admitted has the history fetched; who is refused is told the reason, save a mention told before |
| `Context.KeepNewest` | agent/src/context.rs:52-63 | the kept turns are the longest suffix that fits the budget beside the trigger |
| `Context.Merge` | agent/src/context.rs:68-80 | one turn for each maximal run of a role, after leading assistant turns are dropped |
| `Context.Build` | agent/src/context.rs:29-65 | the prompt is the merge of that suffix and the trigger |
| `Context.SortForgetsOrder` | agent/src/context.rs:30-35 | a history with distinct timestamps sorts to one list whatever its order |
| `Context.PromptForgetsOrder` | agent/src/context.rs:27-65 | the prompt is the same for any order of such a history |
| `Context.PromptKeepsItsPromise` | agent/src/harness.rs:23-24 | turns alternate from a user's, end with the trigger, and their bytes stay within four per budgeted token |
| `Context.PromptIgnoresAll` | agent/src/context.rs:30-34 | histories that differ only in copies of the trigger, later messages and blank ones give the same prompts |
| `Context.PromptIgnores` | agent/src/context.rs:30-34 | such a message may be listed anywhere and makes no difference |
| `Context.PromptSays` | agent/src/context.rs:30-64 | all other messages count, in order of time; the newest of them and the trigger are what is merged, an own one as the agent's turn and another's behind its author's name, and with budget enough it is all of them |
| `Context.MergeKeepsLines` | agent/src/context.rs:68-80 | merging says the same lines in the same order, save for leading turns of the agent's own |
| `Context.MergeAlternates` | agent/src/context.rs:67-80 | the merge alternates, starts with a user, and is empty exactly when all turns are the agent's |
| `Split.FloorBoundary` | agent/src/split.rs:29-34 | the last character boundary at or before a byte |
| `Split.SplitReply` | agent/src/split.rs:3-27 | the parts are those of the specification |
| `Split.PartsFit` | agent/src/split.rs:3-27 | at most the allowed parts, each within the limit, none empty from four bytes on |
| `Split.PartsCarry` | agent/src/split.rs:3-27 | the text is the parts as they are, in order, with only whitespace after each; or the allowed parts hold its beginning so, and the last adds an ellipsis for text that is not blank |
| `Split.ShortIsWhole` | agent/src/split.rs:3-27 | a text no longer than one full part and half of each other is held whole |
| `Split.CutPrefersLines` | agent/src/split.rs:17-22 | where a part may end early, and when it must not |
| `Split.PartsCutWell` | agent/src/split.rs:8-24 | a long text is cut at such a place, trimmed there, and goes on behind it |
| `Split.LastPartIsFull` | agent/src/split.rs:12-16 | the last part allowed holds as much as fits beside the ellipsis |
| `Split.SplitKeepsItsPromise` | agent/src/split.rs:1-27 | the whole promise from text to parts |
| `Split.FourBytesAreNeeded` | agent/src/split.rs:3-27 | no part of any text is empty if and only if the limit is at least four bytes |
| `Split.ThreeBytesAreTooFew` | agent/src/split.rs:16-24 | a limit of three bytes can give an empty part |
| `Text.TrimKeeps` | agent/src/split.rs:6 | trimming takes all whitespace off both ends and nothing else |
| `Text.BytesOfUtf8` | agent/src/split.rs:8 | lengths are those of the UTF-8 form |
| `I18n.Interpolate` | client/src/i18n.rs:181-200 | the output fills pieces that were fixed before any argument was read |
| `I18n.PiecesAreTheTemplate` | client/src/i18n.rs:181-200 | the pieces are the template in order, so inserted text is never scanned |
| `I18n.Capture` | client/src/i18n.rs:240-268 | reading follows the parsed template |
| `I18n.InterpolateUndoesCapture` | client/src/i18n.rs:181-268 | what was captured prints back to the source, for all inputs |
| `I18n.CaptureUndoesInterpolate` | client/src/i18n.rs:181-268 | printed arguments are captured again if and only if they can be told apart |
| `I18n.AdjacentPlaceholders` | client/src/i18n.rs:249-254 | of two adjacent placeholders only an empty second value survives |
| `Emoji.SplitShortcodes` | client/src/emoji.rs:101-133 | the pieces are exactly the valid colon spans and the maximal stretches outside them, in order |
| `Emoji.SplitIsUnique` | client/src/emoji.rs:101-133 | a message splits in one way only |
| `Emoji.PiecesGiveTheMessageBack` | client/src/emoji.rs:101-133 | the pieces put together are the message if and only if no colon closes one code and opens the next |
| `Emoji.PiecesTellMessagesApart` | client/src/emoji.rs:101-133 | different messages with the same pieces have a shared colon |
| `Emoji.PiecesForgetSharedColons` | client/src/emoji.rs:121-122 | two messages that show it |
| `Emoji.DmEmojiTags` | client/src/emoji.rs:144-173 | tags and skipped codes are the first-fit tally of the message's codes |
| `Emoji.TallyIsSound` | client/src/emoji.rs:144-173 | each known code is tagged or skipped once, in order of first use; tagged pictures are on a blob server, or inline ones of at most 16 KiB each and 40 KiB together |
| `Emoji.SkippedForCause` | client/src/emoji.rs:158-170 | a code is skipped if and only if its picture, at the code's first use, is neither hosted nor an inline one that fits by itself and beside those before |
| `Emoji.CodesOfPieces` | client/src/emoji.rs:151-154 | the codes are those of the pieces, piece by piece |
| `Bundle.CleanIsIdempotent` | client/src/activity_bundle.rs:76-88 | a cleaned name is clean |
| `Bundle.CleanPathMeans` | client/src/activity_bundle.rs:76-88 | a name is refused if and only if it is absolute, holds a backslash or colon, leads upwards, or names nothing |
| `Bundle.CleaningDropsOnly` | client/src/activity_bundle.rs:80-83 | cleaning leaves out empty parts and dots and nothing else |
| `Bundle.CleanPathKeepsParts` | client/src/activity_bundle.rs:80-87 | the parts of a cleaned name are those left of the raw one's |
| `Bundle.StripSharedFolder` | client/src/activity_bundle.rs:92-108 | the result does not depend on which key comes first |
| `Bundle.StripIsRenaming` | client/src/activity_bundle.rs:102-105 | stripping is one to one and keeps contents |
| `Bundle.StripKeepsClean` | client/src/activity_bundle.rs:92-108 | clean names stay clean |
| `Bundle.Collect` | client/src/activity_bundle.rs:41-68 | entries are accepted exactly when all are sound and within the bound, else the first fault is reported |
| `Bundle.StoredHoldsLast` | client/src/activity_bundle.rs:60-67 | a bundle holds exactly the clean names of its files, each with what the last such file holds |
| `Bundle.FailureMeans` | client/src/activity_bundle.rs:42-59 | what each refusal says of the entry it stops at |
| `Bundle.Unpack` | client/src/activity_bundle.rs:29-74 | what a bundle holds, and when each refusal is given |
| `Bundle.BundleIsBounded` | client/src/activity_bundle.rs:11-12 | a bundle holds at most 16 MiB, duplicates included, under clean names |
| `Frames.EscapeBytes` | client/assets/livekit-client.e2ee.worker.js:1 | the escape loop of class `wn`, method `encodeFunction`, inserts what the escaping function says, for every input |
| `Frames.UnescapeBytes` | client/assets/livekit-client.e2ee.worker.js:1 | the unescape loop of class `wn`, method `decryptFrame`, drops what the unescaping function says, for every input |
| `Frames.UnescapeUndoesEscape` | client/assets/livekit-client.e2ee.worker.js:1 | unescaping undoes escaping |
| `Frames.EscapedHoldsNoReservedPattern` | client/assets/livekit-client.e2ee.worker.js:1 | escaped bytes hold none of 00 00 00, 00 00 01, 00 00 02 |
| `Frames.MarkerTestIsExact` | client/assets/livekit-client.e2ee.worker.js:1 | on escaped data the test finds a marker exactly when something was escaped |
| `Frames.EscapeKeepsLast` | client/assets/livekit-client.e2ee.worker.js:1 | the key index survives as the last byte |
| `Frames.EncodeFrame` | client/assets/livekit-client.e2ee.worker.js:1 | the layout of an encrypted frame; an empty one passes, and one shorter than its clear header rejects the call |
| `Frames.DecryptFrame` | client/assets/livekit-client.e2ee.worker.js:1 | one attempt: what it returns and what it leaves in the frame |
| `Frames.FrameRoundTrip` | client/assets/livekit-client.e2ee.worker.js:1 | decrypting undoes encrypting for every frame, header and key index |
| `Frames.HeaderIsAuthenticated` | client/assets/livekit-client.e2ee.worker.js:1 | a frame with altered clear bytes does not open, if the cipher refuses them as associated data |
| `Frames.DecryptRatcheting` | client/assets/livekit-client.e2ee.worker.js:1 | attempts go on while the window allows, each on the frame as the one before left it |
| `Frames.RatchetRecovers` | client/assets/livekit-client.e2ee.worker.js:1 | a frame whose key the window reaches is recovered if and only if that key is the first or the payload holds no marker of its own |
| `Frames.RatchetCanLose` | client/assets/livekit-client.e2ee.worker.js:1 | under an ideal cipher there are frames that the retry loses |
| `Limiters.Limiter.Process` | client/src/agc.rs:92-100 | the hop, limited in place, depends on the whole input only |
| `Limiters.GainIsLeast` | client/src/agc.rs:92-100 | the gain is the least of 1 and what each past sample still allows |
| `Limiters.OutputBounded` | client/src/agc.rs:75-77 | no output passes the ceiling |
| `Limiters.TargetIsLargest` | client/src/agc.rs:92-100 | a sample's target is the largest gain up to 1 that keeps it within the ceiling |
| `Limiters.LimitedAt` | client/src/agc.rs:92-100 | each output is its input scaled by the gain after all samples up to it |
| `Limiters.Recovery` | client/src/agc.rs:75-77 | under quiet input the gain rises, its gap to 1 shrinking geometrically |
| `Limiters.HopsDoNotMatter` | client/src/agc.rs:75-100 | cutting the input into other hops changes nothing |
| `References.Reference.Push` | client/src/echo.rs:26-45 | what was produced is the input, joined by lines, at every multiple of the rate |
| `References.NextSample` | client/src/echo.rs:30-32 | each turn of the loop computes the next sample, and its fraction is never clamped |
| `References.AtIsLinear` | client/src/echo.rs:30-31 | between two inputs the output lies on the straight line that joins them |
| `References.PcmMeans` | client/src/echo.rs:32 | a sample in range is scaled and truncated toward zero, one out of range is the extreme |
| `References.CountsAreExact` | client/src/echo.rs:27-42 | the counts and the phase are the quotient and remainder of the time passed |
| `Denoise.Denoiser.ProcessHop` | client/src/denoise.rs:72-90 | the model is dropped at the first hop that ends a stretch with excess 100, and never returns |
| `Denoise.CounterStep` | client/src/denoise.rs:81-85 | the counter is the greatest excess of a stretch ending now |
| `Denoise.OverloadStep` | client/src/denoise.rs:86-89 | the trip level is reached exactly when some stretch reaches it |
| `Denoise.Denoiser.Mix` | client/src/denoise.rs:111-123 | the mixed-in original is that of the hop before, in place |
| `Denoise.MixedMeans` | client/src/denoise.rs:120 | the mix holds the share of the original it is told to |
| `Preview.Worker.Drain` | client/src/camera_preview.rs:62-67 | a superseded stop is answered, the newest command kept |
| `Preview.Worker.Act` | client/src/camera_preview.rs:68-88 | a stop clears and is answered; a configuration starts blank; a hang-up ends the worker |
| `Preview.Worker.Release` | client/src/camera_preview.rs:131-138 | the device is closed and the picture gone before the next command |
| `Preview.AtMostOneCapture` | client/src/camera_preview.rs:93-138 | at most one capture is open in any run |
| `Preview.AcknowledgedWhenReleased` | client/src/camera_preview.rs:63-81 | a stop is answered only with the device closed and nothing on show |
| `Preview.SupersededIsNeverShown` | client/src/camera_preview.rs:104-130 | once another command is taken no picture of the old configuration is shown |
| `Preview.StopsInOrder` | client/src/camera_preview.rs:59-83 | stops are answered at most once, in order, and dropped only after a hang-up |
| `KeyRing.Media.ApplyKey` | client/src/e2ee.rs:188-234 | a new key goes to the screen's slot, the epoch's slot and every room; a repeated key changes nothing |
| `KeyRing.RekeyMovesSenders` | client/src/e2ee.rs:214-224 | a rekey encrypts every room and moves every sender of a voice room, and no sender of a screen |
| `KeyRing.PointingMovesAll` | client/src/e2ee.rs:145-155 | pointing at a slot moves all senders and nothing else |
| `KeyRing.Media.RegisterRoom` | client/src/e2ee.rs:167-186 | a room encrypts exactly when there is a key, its voice senders at the voice slot |
| `KeyRing.Media.PlaceNewVoicePublication` | client/src/e2ee.rs:157-165 | all senders of the room move to the voice slot |
| `KeyRing.EverySenderHoldsTheKey` | client/src/e2ee.rs:157-234 | with a key active, both slots hold it and so does every sender's slot |
| `KeyRing.LastFifteenRemain` | client/src/e2ee.rs:129-138 | the keys of fifteen successive epochs stay in distinct slots beside the screen's |
| `KeyRing.KeyRemainsUntilReplaced` | client/src/e2ee.rs:136-138 | a key stays in its slot exactly until a later key comes for an epoch that agrees modulo fifteen |
| `KeyRing.KeyRemainsExactly` | client/src/mediakey.rs:401 | over rekeys a key remains exactly while it is active or the epoch has risen since by less than fifteen, the highest epoch included |
| `KeyRing.RekeyAtTheTop` | client/src/mediakey.rs:401 | of two keys for the highest epoch the first is gone, while the key of the epoch before stays |
| `Updater.Installer.Begin` | client/android/DioxusUpdater.kt:29-34 | an update starts unless one is under way, under a new generation |
| `Updater.Installer.Checked` | client/android/DioxusUpdater.kt:56-71 | a stale check changes nothing; a current one installs, asks, or fails |
| `Updater.Installer.PermissionReturned` | client/android/DioxusUpdater.kt:75-82 | only a waiting installer reacts |
| `Updater.Installer.Install` | client/android/DioxusUpdater.kt:84-146 | one receiver and one session, or neither |
| `Updater.Installer.OnReceive` | client/android/DioxusUpdater.kt:92-117 | a stale report changes nothing; a final one ends the installation |
| `Updater.ReportMeans` | client/android/DioxusUpdater.kt:103-111 | success installs, a refusal by the user cancels, anything else fails with its message |
| `Updater.Installer.Cancel` | client/android/DioxusUpdater.kt:148-155 | everything held is given up under a new generation; a session that cannot be abandoned stays on as an orphan |
| `Updater.Installer.AbandonOrphan` | client/android/DioxusUpdater.kt:38-41 | a sweep of orphans, however late it goes on, never ends the session held |
| `Updater.OneOfEach` | client/android/DioxusUpdater.kt:148-166 | in every interleaving one session and one receiver at most, only while installing; each other live session could not be abandoned; no receiver is taken off twice |

## Left out

- Network, provider and gateway calls, file dialogs, device handling and user interface: their results are parameters of the methods here.
- The agent's Ready and profile handling (agent/src/runner.rs:142-194, 102-118), apart from the channel map it fills: no run-loop state depends on it.
- Whether a text mentions a name, whether a shortcode is valid and how a placeholder's digits are read: parameters, on which no property depends.
- Floating-point rounding in the limiter, the resampler and the mix: samples are real numbers.
- Runner.Agent.Start: a gateway error in the middle of a handler ends the run, so the invariant is promised only when the run goes on.
- Runner.Agent.OnTick: a gateway error while typing is shown ends the run; the state before it is the one described.
- Runner.Agent.OnJoined: a gateway error while a reply is sent ends the run after the task's end is written down; how much of the reply got out is not modelled.
- Split.SplitReply: slices are counted in characters, with byte lengths computed from them; a limit under three bytes underflows in the source and is excluded.
- References.Reference.Push: frames handed to a full channel are dropped by the channel, which is not part of this model; the counters are unbounded.
- Frames.DecryptFrame: the choice of key, the ratchet's key derivation (the key of each attempt is a parameter), server-injected frames and the search for the clear header's length are not modelled; the length is a parameter, equal at both ends.
- KeyRing.Media.ApplyKey: each call is one step under its locks; interleavings inside a call and the switch that turns encryption off are not modelled.
- Updater.Installer.Checked: generations do not wrap; an orphaned session that ends by itself is still counted as live.
- Bundle.Unpack: decoding the zip, the single-page branch and content types are not modelled; entries come as read or unreadable.
- Preview.Worker.FrameCame: conversion and encoding of the picture are parameters, and so is whether the last frame was too recent.
- Denoise.Denoiser.ProcessHop: the network's output and the time it took are parameters.
