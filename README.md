# Mizuki bot core, modelled in Dafny

Mizuki is a Discord bot written in TypeScript. This project models the parts of it that make
decisions:

- **Command loader and dispatcher** (`CommandHandler`). The loader walks the command folders and
  registers every module that has `data` and `execute`, with the last one of each name winning. The
  interaction listener ignores what it should. A cooldown gate can deny a repeated use. The
  dispatcher reports a handler that throws.
- **Event loader** (`EventHandler`). Each valid event file becomes one `once` or `on`
  subscription.
- **Git reader** (`GitInfo`).
  - The last commit and an all-or-nothing history of `HEAD~i`.
  - The repository info, with its fallback.
  - The conventional-commit formatter, whose regular expression `^(\w+)(\(.+\))?: (.+)$` is
    replaced by a hand parser. The parser is proved sound and complete against a predicate that
    states the regular expression's language, and greedy in the scope.
- **Status manager** (`BotStatus`).
  - The status table and the uptime rendering.
  - The status embed.
  - The find-or-create publication of that embed over the channel's last 20 messages, which
    records the message id.
  - The five wrapper methods.
- **Client-ready status event** (`StatusUpdate`). A copy of the same publication, with its own
  embed and a limit of 10.
- **Changelog manager** (`ChangelogManager`). The last-commit and history embeds, the repository
  link, and the send guards.
- **Slash commands** (`ChangelogCommand` and `StatusCommand`). How an option value is mapped to a
  manager call and a reply.

Shared modules:

- `Wrappers`: `Option`.
- `Text`: decimal rendering, ASCII case mapping, and substring search.
- `Embeds`: embeds, messages, the channel as a mutable message list (newest first), and the
  find-or-create rule both status publishers use.

The side effects are modelled as follows:

- Discord's REST calls, `execSync`, the clock and the file system become parameters.
  - A `TextChannel` object's `messages` stand for the channel's history.
  - `apiFails` / `sendFails` / `FailPoint` say whether a request throws.
  - `newId` is the id Discord would assign to a sent message.
  - `now` is `Date.now()`.
  - A `Git` map holds the trimmed output of each git command that succeeds.
  - A directory listing is `Option<seq<...>>`: `None` when the directory does not exist.
- The numbers of the status embed (uptime, guilds, users, heap size, commands) are a `Snapshot`.
- `client.user!.id` is the string `botId`.
- Environment variables are the `statusChannelId` / `changelogChannelId` strings, with `""` for
  unset.

Files:

- `wrappers.dfy`
- `text.dfy`
- `embeds.dfy`
- `command_handler.dfy`
- `event_handler.dfy`
- `git_info.dfy`
- `bot_status.dfy`
- `status_update.dfy`
- `changelog_manager.dfy`
- `changelog_command.dfy`
- `status_command.dfy`

## Model

| member | source | states |
|---|---|---|
| CommandHandler.CommandHandler.constructor | src/handlers/CommandHandler.ts:11-14 | a new handler has no commands, an empty cooldown table and no listener |
| CommandHandler.CommandHandler.LoadCommands | src/handlers/CommandHandler.ts:16-49 | a missing commands directory changes nothing and installs no listener; otherwise every valid module of every folder is registered by name, in listing order, onto the existing registry, and the listener is installed; cooldowns are untouched |
| CommandHandler.CommandHandler.LoadDirectory | src/handlers/CommandHandler.ts:25-46 | the loop over the directory entries registers exactly the commands of the folder entries, in order; plain files at top level contribute nothing |
| CommandHandler.CommandHandler.LoadFolder | src/handlers/CommandHandler.ts:32-44 | the loop over one folder registers exactly its `.ts` files that have `data` and `execute`, later files overwriting earlier ones of the same name |
| CommandHandler.RegisterLookup | src/handlers/CommandHandler.ts:34-44 | after loading, a name maps to the last valid module declaring it; a name no loaded module declares keeps its previous entry |
| CommandHandler.RegisterWellFormed | src/handlers/CommandHandler.ts:38-39 | every registry entry is a valid module stored under its own `data.name` |
| CommandHandler.RegisterAppend | src/handlers/CommandHandler.ts:27-46 | registering two batches in turn equals registering their concatenation (loading is a left fold) |
| CommandHandler.SingleFileFolder | src/handlers/CommandHandler.ts:32-43 | a one-file folder contributes its module exactly when the name ends in `.ts` and the module has `data` and `execute` |
| CommandHandler.TopLevelFilesIgnored | src/handlers/CommandHandler.ts:29-31 | a commands directory made only of plain files loads no command at all (the repository's own layout keeps its commands as such files) |
| CommandHandler.TsFiles | src/handlers/CommandHandler.ts:32 | the filter keeps only `.ts` names and never adds entries |
| CommandHandler.ValidCommands | src/handlers/CommandHandler.ts:38-43 | only modules with `data` and `execute` survive |
| CommandHandler.LastNamed | src/handlers/CommandHandler.ts:39 | the found module is in the batch and has the name; absence means no module has it |
| CommandHandler.CommandHandler.HandleInteraction | src/handlers/CommandHandler.ts:49-101 | the returned dispatch and the new cooldown table are those of the specification function `DispatchStep` |
| CommandHandler.DispatchIgnoresUnknown | src/handlers/CommandHandler.ts:50-53 | a non-chat-input interaction, an unknown command, or no installed listener produces nothing and leaves the cooldowns unchanged |
| CommandHandler.GateDecision | src/handlers/CommandHandler.ts:56-81 | for a command with a cooldown, the handler runs iff the user has no stamp or `now >= stamp + cooldown*1000`, and is otherwise denied, never ignored; a denial leaves the table unchanged and replies ephemerally with the retry time; a run stamps exactly (command, user) with `now` |
| CommandHandler.CooldownWindow | src/handlers/CommandHandler.ts:67-80 | a first use runs, a second use 1 ms before the window closes is denied, and a use at the closing instant runs again |
| CommandHandler.UngatedAlwaysRuns | src/handlers/CommandHandler.ts:56 | a command without a (truthy) cooldown always runs and never touches the table |
| CommandHandler.GatedUsesDeclaredCooldown | src/handlers/CommandHandler.ts:64-65 | the window is the declared cooldown in milliseconds; the default of 3 s is never used, since a gated command has a cooldown |
| CommandHandler.Stamp | src/handlers/CommandHandler.ts:58-79 | the stamp sets exactly the (command, user) entry, creating the command's sub-table if needed, and keeps every other entry |
| CommandHandler.RetryAtSeconds | src/handlers/CommandHandler.ts:71 | the retry time is `expiration / 1000` rounded half up |
| CommandHandler.RunHandler | src/handlers/CommandHandler.ts:84-100 | whatever the handler does, it is recorded as run |
| CommandHandler.FailureReporting | src/handlers/CommandHandler.ts:87-99 | a throwing handler is answered with the fixed ephemeral error text, as a follow-up iff the interaction was already replied to or deferred |
| CommandHandler.AsWrittenGatedCommandCrashes | src/handlers/CommandHandler.ts:57-58 | as written, every gated command crashes before its handler, while the corrected dispatch runs it on first use |
| EventHandler.LoadEvents | src/handlers/EventHandler.ts:14-40 | a missing events directory adds nothing; otherwise the subscriptions of the listed files are appended in order |
| EventHandler.Subscriptions | src/handlers/EventHandler.ts:23-39 | loading never produces more subscriptions than files |
| EventHandler.SubscriptionsAppend | src/handlers/EventHandler.ts:25-39 | loading is compositional over the file list |
| EventHandler.SingleFile | src/handlers/EventHandler.ts:23-38 | a file is subscribed iff it is a `.ts` file with `name` and `execute`, and then under its event name and mode |
| EventHandler.OneSubscriptionPerValidFile | src/handlers/EventHandler.ts:25-39 | the number of subscriptions is the number of valid `.ts` event files |
| GitInfo.CommitAt | src/utils/GitInfo.ts:20-42 | a commit is read iff all six of its git commands succeed; its hash, short hash, subject, author name, author date and current branch are what those commands print; any failure gives `null` |
| GitInfo.HistoryShape | src/utils/GitInfo.ts:44-71 | the history is the commits `HEAD~0..HEAD~limit-1` in order when all are readable and empty otherwise; every entry carries the current branch |
| GitInfo.HistoryPrefixDefined | src/utils/GitInfo.ts:48-64 | the loop completes iff every commit before `limit` is readable |
| GitInfo.HistoryPrefixContents | src/utils/GitInfo.ts:48-64 | a completed loop pushed exactly one commit per index, the commit at that index |
| GitInfo.HistoryPrefixFails | src/utils/GitInfo.ts:67-70 | once one iteration throws, the whole call throws |
| GitInfo.CommitHistory | src/utils/GitInfo.ts:44-71 | the loop returns the specified history: all `limit` commits, or `[]` after any failure |
| GitInfo.LastCommitIsHistoryOfOne | src/utils/GitInfo.ts:20-71 | the last commit is the one-entry history, and `null` iff that history is empty |
| GitInfo.RepositoryInfo | src/utils/GitInfo.ts:73-91 | a repository is reported iff both the remote URL and the branch commands succeed; otherwise no URL, branch `unknown` |
| GitInfo.WordPrefixLength | src/utils/GitInfo.ts:95 | `\w+` at the start is greedy: all word characters, stopped by a non-word character |
| GitInfo.LastScopeClose | src/utils/GitInfo.ts:95 | `(.+)` inside the scope group backtracks from the longest candidate: the result is the largest split point that closes the scope |
| GitInfo.ParseHeaderSound | src/utils/GitInfo.ts:95-99 | every header the parser returns is a match of the regular expression for the message |
| GitInfo.ParseHeaderComplete | src/utils/GitInfo.ts:95-99 | any message the expression matches is parsed, with the same type; without a scope it is exactly that match, with one it is the longest scope |
| GitInfo.TypeIsWordPrefix | src/utils/GitInfo.ts:95 | the type of every match is the message's whole leading word |
| GitInfo.SplitDeterminedByLengths | src/utils/GitInfo.ts:95 | two scoped matches with equal type and scope length are the same match |
| GitInfo.FormatNonConventional | src/utils/GitInfo.ts:106 | a message that is not a conventional commit is rendered `📝 message` |
| GitInfo.FormatConventional | src/utils/GitInfo.ts:99-103 | a conventional commit is rendered as its type's emoji, the upper-cased type in bold, the scope without parentheses in bold, then `: description`, using the longest scope |
| GitInfo.TypeEmoji | src/utils/GitInfo.ts:109-124 | the default emoji is given exactly to types outside the eleven known ones, compared in lower case |
| GitInfo.TypeEmojiIgnoresCase | src/utils/GitInfo.ts:110 | upper-casing or lower-casing the type does not change its emoji |
| Text.LowerIgnoresCase | src/utils/GitInfo.ts:110 | lower-casing absorbs upper-casing and is idempotent |
| Text.NatToStringRoundTrip | src/utils/BotStatus.ts:126-132 | the decimal rendering used in every template reads back as the number |
| Text.NatToStringInjective | src/utils/BotStatus.ts:126-132 | distinct numbers render differently |
| Text.IndexOfFrom | src/utils/ChangelogManager.ts:118 | the search finds the first occurrence at or after the start, or proves none exists |
| Embeds.FindStatusMessage | src/utils/BotStatus.ts:139-143 | the found message is the newest one among the last `limit` that the bot wrote with a first embed whose title contains `Mizuki Bot Status`; none means no such message is among them |
| Embeds.PublishTouchesOneMessage | src/utils/BotStatus.ts:145-154 | publishing replaces the embeds of exactly the found message, keeping its id, or prepends one new bot message with the new id; no other message changes |
| Embeds.PublishedIsFound | src/utils/BotStatus.ts:139-154 | after publishing a status embed, the next search finds the published message carrying the new embed |
| Embeds.RepublishFindsSameMessage | src/utils/BotStatus.ts:139-154 | a second publication edits the message the first one produced, so repeated updates never create a second status message |
| Embeds.FirstStatusMessageIs | src/utils/BotStatus.ts:140-143 | the search returns the first status message in the window |
| BotStatus.EnumValueInjective | src/utils/BotStatus.ts:4-10 | the five enum values are distinct |
| BotStatus.StatusConfigTable | src/utils/BotStatus.ts:102-117 | display names are distinct; colours coincide only for OFFLINE and ERROR, the two red ones |
| BotStatus.UptimeParts | src/utils/BotStatus.ts:120-123 | days, hours, minutes and seconds recompose the input with hours < 24 and minutes, seconds < 60 |
| BotStatus.UptimePartsUnique | src/utils/BotStatus.ts:120-123 | that decomposition is the only one |
| BotStatus.FormatUptimeForms | src/utils/BotStatus.ts:119-134 | under a minute `Ss`; under an hour `Mm Ss`; under a day `Hh Mm Ss`; from one day on `Dd Hh Mm`, each number the floored count of its unit within the next larger one, so the seconds are dropped |
| BotStatus.FormatUptimeInjectiveBelowDay | src/utils/BotStatus.ts:119-134 | below one day the rendering is injective: distinct uptimes never render alike |
| BotStatus.CreateStatusEmbed | src/utils/BotStatus.ts:46-100 | the title, the status colour, six inline fields in order (status name, uptime, server count, user count, heap megabytes, command count, each with its label and unit), and a seventh non-inline `Mensaje` field exactly when a non-empty custom message is given |
| BotStatus.StatusEmbedDeterminesStatus | src/utils/BotStatus.ts:53-58 | the status field identifies the status, and the custom message affects only the seventh field |
| BotStatus.BotStatusManager.constructor | src/utils/BotStatus.ts:16-22 | a manager starts with no recorded status message |
| BotStatus.BotStatusManager.SendOrUpdateStatus | src/utils/BotStatus.ts:136-159 | on success the channel is the find-or-create publication over the last 20 messages and the published message's id is recorded; a failing request changes nothing |
| BotStatus.BotStatusManager.UpdateStatus | src/utils/BotStatus.ts:24-44 | with no channel id, no channel or a failing request nothing changes; otherwise the status embed is published and its id recorded |
| BotStatus.BotStatusManager.SetOnline | src/utils/BotStatus.ts:162-164 | publishes the ONLINE embed without message |
| BotStatus.BotStatusManager.SetOffline | src/utils/BotStatus.ts:166-168 | publishes the OFFLINE embed without message |
| BotStatus.BotStatusManager.SetMaintenance | src/utils/BotStatus.ts:170-172 | publishes the MAINTENANCE embed with the given message |
| BotStatus.BotStatusManager.SetRestarting | src/utils/BotStatus.ts:174-176 | publishes the RESTARTING embed with the fixed restart notice |
| BotStatus.BotStatusManager.SetError | src/utils/BotStatus.ts:178-180 | publishes the ERROR embed with the given message |
| BotStatus.WrapperEmbeds | src/utils/BotStatus.ts:91-97 | ONLINE and OFFLINE embeds have six fields, RESTARTING shows the notice, and MAINTENANCE and ERROR show the message iff it is non-empty |
| BotStatus.RecordedIdIsFound | src/utils/BotStatus.ts:139-154 | the recorded id is the id of the message the next update will find and edit |
| StatusUpdate.FormatUptimeAgrees | src/events/statusUpdate.ts:6-21 | the event's copy of the uptime rendering equals the manager's on every input |
| StatusUpdate.OnlineEmbed | src/events/statusUpdate.ts:67-107 | the event's embed has the status title, green colour, six inline fields, and the status field `🟢 Status`/`**Online**` |
| StatusUpdate.OnlineEmbedMatchesManager | src/events/statusUpdate.ts:67-107 | it equals the manager's ONLINE embed in title, colour and every field but the status field, which differs |
| StatusUpdate.UpdateStatusMessage | src/events/statusUpdate.ts:23-44 | on success the channel is the find-or-create publication over the last 10 messages; a failing request changes nothing |
| StatusUpdate.Execute | src/events/statusUpdate.ts:49-117 | no configured channel id or a failing request leaves the channel unchanged; otherwise the online embed is published |
| StatusUpdate.SubscribedOnEveryReady | src/events/statusUpdate.ts:46-49 | loaded by the event loader, the event is subscribed with `on` to the client-ready event |
| ChangelogManager.ChangelogManager.constructor | src/utils/ChangelogManager.ts:11-16 | a manager keeps the bot id and the configured channel id |
| ChangelogManager.AsWrittenManglesPagesRepo | src/utils/ChangelogManager.ts:118 | as written, a remote `p.github.io.git` links to `phub.io.git`; the corrected link is `p.github.io` |
| ChangelogManager.RepoLink | src/utils/ChangelogManager.ts:118 | the corrected link rule (see Findings): the remote URL without a trailing `.git`, and the URL itself when there is none |
| ChangelogManager.AsWrittenAgreesOnPlainRemotes | src/utils/ChangelogManager.ts:118 | on a remote with no `.git` before its end, the link as written equals the corrected link |
| ChangelogManager.RepoLinkStripsSuffix | src/utils/ChangelogManager.ts:118 | stripping inverts appending `.git` and never lengthens the URL |
| ChangelogManager.RepositoryField | src/utils/ChangelogManager.ts:115-121 | the repository field is present iff the repository has a remote URL, and then links to it |
| ChangelogManager.CommitEmbed | src/utils/ChangelogManager.ts:74-124 | the last-commit embed has the fixed title and colour and no description; its fields are, in order, the short hash in backticks, the author, the full date tag and the branch in backticks, all four inline, then the formatted message, not inline, and the repository field linking to the commit iff there is a remote |
| ChangelogManager.CommitLines | src/utils/ChangelogManager.ts:141-153 | one field per commit, in order |
| ChangelogManager.HistoryEmbedLayout | src/utils/ChangelogManager.ts:126-164 | the history title and changelog colour; at most 20 commit fields (the first ones, in order) plus the repository field linking to the repository last; the description counts every commit, shown or not |
| ChangelogManager.BuildHistoryEmbed | src/utils/ChangelogManager.ts:126-164 | the loop builds exactly the specified history embed |
| ChangelogManager.ChangelogManager.SendLastCommitChangelog | src/utils/ChangelogManager.ts:18-44 | no channel id, no readable commit or a failing send leaves the channel unchanged; otherwise the last-commit embed is sent as a new message |
| ChangelogManager.ChangelogManager.SendCommitHistoryChangelog | src/utils/ChangelogManager.ts:46-72 | no channel id, an empty history or a failing send leaves the channel unchanged; otherwise the history embed of the `limit` last commits is sent |
| ChangelogManager.ChangelogManager.SendNewCommitChangelog | src/utils/ChangelogManager.ts:167-169 | the same channel change as the last-commit changelog |
| ChangelogManager.ChangelogManager.SendWeeklyChangelog | src/utils/ChangelogManager.ts:171-173 | nothing is sent unless the 10 last commits are all readable (and a channel and a working send exist); then their history embed is |
| ChangelogManager.ChangelogManager.SendReleaseChangelog | src/utils/ChangelogManager.ts:175-177 | the same with the 20 last commits |
| ChangelogManager.HistoryEmbedListsCommits | src/utils/ChangelogManager.ts:46-72 | with the first `limit` commits readable, the history embed counts `limit` commits and lists `HEAD`, `HEAD~1`, … in order up to the 20-field cap; with any unreadable the history is empty and nothing is sent |
| ChangelogManager.ReleaseShowsAllItReads | src/utils/ChangelogManager.ts:140-153 | a release changelog reads 20 commits, which all fit under the 20-field cap |
| ChangelogCommand.CallFor | src/commands/changelog.ts:32-52 | a manager call is made iff `tipo` is one of the four choices |
| ChangelogCommand.ChoiceContents | src/commands/changelog.ts:17-47 | `last` sends the last commit; `history`, `weekly` and `release` send 5, 10 and 20 commits |
| ChangelogCommand.ExecuteOutcome | src/commands/changelog.ts:25-63 | a known choice makes its call and, if the replies work, is logged and gets the reply naming what was sent (last commit, 5-commit history, weekly, release); an unknown one makes no call, is not logged and gets the "not recognised" reply; a failing `editReply` ends with the error text; a failing `deferReply` edits nothing and throws out of `execute` without a response |
| ChangelogCommand.DeferFailureReachesHandler | src/commands/changelog.ts:29-62 | only a failing `deferReply` reaches the command handler, which answers with its generic error as a fresh ephemeral reply |
| ChangelogCommand.DefinitionIsGated | src/commands/changelog.ts:9-24 | the loader accepts the command as `changelog`, admin-only, gated by a 10 s cooldown |
| StatusCommand.CallFor | src/commands/status.ts:41-57 | a manager call is made iff `estado` is one of the five choices |
| StatusCommand.ChoiceSetsNamedStatus | src/commands/status.ts:15-57 | each choice sets the status it names; MAINTENANCE and ERROR always carry a non-empty message (the user's if given); the others ignore `mensaje` |
| StatusCommand.ExecuteOutcome | src/commands/status.ts:31-71 | with working replies every `estado` is logged and answered `✅ Estado cambiado a: **estado**`, followed by `\n📝 Mensaje: mensaje` exactly when `mensaje` is non-empty; a failing `editReply` gives the error reply; a failing `deferReply` edits nothing and throws out of `execute` without a response |
| StatusCommand.DeferFailureReachesHandler | src/commands/status.ts:37-70 | only a failing `deferReply` reaches the command handler, which answers with its generic error as a fresh ephemeral reply |
| StatusCommand.DefinitionIsGated | src/commands/status.ts:7-73 | the loader accepts the command as `status`, admin-only, gated by a 10 s cooldown |

## Left out

- Log output (`Logger`) is not modelled, except whether a command logs `commandExecuted`, which
  the commands' `Outcome.logged` records. `Logger` is not part of this model.
- `src/index.ts` (client construction, login, process signals) is not part of this model. Nor are
  the `ready`, `changelog` and `statusRefresh` events, the `ping` command (beyond its 3-second
  cooldown) or `LoggerTest`.
- Concurrency is not modelled.
  - Async calls are taken as running to completion in program order.
  - Two interactions interleaving on the cooldown table are not considered.
- `CommandHandler.GateDecision`: the `setTimeout` that deletes a cooldown stamp after the window
  is left out; the model keeps every stamp until a later use of the same command by the same user
  overwrites it. The timer deletes whatever stamp the user has when it fires, so in the source a
  late timer from an earlier use can delete a fresher stamp and let the user in before that
  stamp's window closes. The model does not reproduce this early admission.
- `CommandHandler.CommandModule`: `cooldown` is a natural number of seconds; the source's
  `cooldown?: number` also admits fractional or negative values, which no command of the
  repository uses (they declare 3, 10 and 10).
- `require` failing, or a module without a default export, is not modelled. In the source either
  throws out of `loadCommands` or `loadEvents`.
- Calling `loadCommands` twice installs a second listener in the source. The model records only
  that a listener is installed.
- `CommandHandler.CommandHandler.HandleInteraction`: the model uses one handler-owned cooldown
  table in place of `client.cooldowns`, which the source never assigns (see Findings).
- The handler's own execution is abstracted to "ran normally" or "threw, after or before
  replying". The commands' `execute` functions are modelled separately as `Execute` in
  `ChangelogCommand` and `StatusCommand`.
- Discord requests are abstracted:
  - A `channels.fetch` that throws and one that returns `null` are merged into `channel == null`
    and the failure flags.
  - Permissions, rate limits and the message cache are not modelled.
- Embeds carry title, colour, description and fields. Thumbnails, footers, timestamps and author
  avatars are left out, as they carry no decision.
- `BotStatus.CreateStatusEmbed` is not modelled with floating-point values.
  - `process.uptime()` is a whole number of seconds.
  - The heap figure is the already rounded number of megabytes.
  - The guild and user counts are the client's numbers.
- `GitInfo.CommitAt`: the author, date and short hash are the outputs of their git commands. The
  model does not parse the date format.
- `ChangelogManager.CommitEmbed`: `Math.floor(new Date(date).getTime() / 1000)` is a lookup in a
  table from date strings to epoch seconds, which are non-negative. A string missing from the table
  renders `NaN`, as an unparsable date does in the source. Time zones and dates before 1970 are
  not modelled.
- `.trim()` of git output is assumed already applied: the `Git` map holds trimmed outputs.
- `GitInfo.TypeEmoji`: `toLowerCase`/`toUpperCase` are modelled for ASCII letters only. No
  non-ASCII character lowercases to an ASCII string spelling one of the eleven type names, so the
  emoji choice is unaffected. The upper-cased type shown for non-ASCII word characters is outside
  the model; `\w` is ASCII anyway.
- `ChangelogManager.RepositoryField`, and through it `ChangelogManager.CommitEmbed`,
  `ChangelogManager.HistoryEmbed`, `ChangelogManager.BuildHistoryEmbed` and the send methods, use
  the corrected link `RepoLink`, not the as-written `replace('.git', '')` of lines 118 and 158
  (see Findings). The two agree whenever `.git` occurs in the remote URL only as its suffix
  (`AsWrittenAgreesOnPlainRemotes`); they differ on a URL with an earlier `.git`, such as a
  pages repository.
- `ChangelogCommand.Execute` and `StatusCommand.Execute`: when `deferReply` succeeds, the catch's
  `editReply` of the error text is taken to succeed; a second failure there is not modelled.
- `ChangelogManager.ChangelogCall`: the history call always carries its limit; the default of 5 of
  `sendCommitHistoryChangelog` is never relied on by a caller.
- `ChangelogManager.HistoryEmbed`: the loop's `if (!commit) continue` cannot trigger, since the
  index stays below the array's length and the array holds only commit objects. It is not
  modelled.
- The `default` branch of `getStatusConfig` is not modelled: the `BotStatus` enum has five values.
- `GitInfo.ParseHeaderComplete`: for a scoped match it states that the parsed scope is at least
  as long as the given one, and not the exact equality. The regular expression's backtracking
  picks the longest scope, which `LastScopeClose` and `FormatConventional` state.

## Findings

| source | as written | input that shows it | evidently intended | confidence | as-written member | corrected member |
|---|---|---|---|---|---|---|
| src/handlers/CommandHandler.ts:57 | the gate reads `client.cooldowns`, which no code assigns (the handler's own `this.cooldowns` is never used), so `cooldowns.has` throws a TypeError for every command with a cooldown | a command module with a cooldown placed in a sub-folder of the commands directory (say `src/commands/util/ping.ts`, with its 3-second cooldown), so that the loader registers it, then any chat-input interaction naming it | one cooldown table, created empty and kept across interactions | not executed | CommandHandler.AsWrittenGatedCommandCrashes | CommandHandler.GateDecision |
| src/utils/ChangelogManager.ts:118 | `remoteUrl.replace('.git', '')` removes the first `.git` anywhere in the URL (also at line 158) | remote `https://github.com/u/u.github.io.git` gives the link `https://github.com/u/uhub.io.git` | strip the trailing `.git` only | not executed | ChangelogManager.AsWrittenManglesPagesRepo | ChangelogManager.RepoLinkStripsSuffix |
