# MotorTownDiscordBot core, modelled in Dafny

MotorTownDiscordBot links a Motor Town dedicated server to Discord. The server writes a
text log. The bot tails that log, turns each line into a game event, and posts it to
the configured Discord channel. Its slash commands call the server's admin web API.
This project models that path and proves properties of it:

- **Log lines** (`GameEvents`, `game_event.dfy`). `GameEvent.ParseLog` splits a line on
  single spaces. Token 0 must parse exactly as `[yyyy.MM.dd-HH.mm.ss]` (`Timestamp`).
  Four rules are then tried in order: chat, login, logout, admin. A line can end in one
  of three ways:
  - an exception: a bad timestamp, or a token that is read but does not exist;
  - `null`: no rule matched;
  - an event: chat message, session or ban. It carries the line, the time and the player.

  `String.Split`, `String.Join` and `TrimEnd`/`TrimStart`/`Trim` are modelled in `Text`.
  The repository's own unit-test lines are worked through in `GameEventTests`.
- **The log tailer** (`LogReading`, `log_reader.dfy`). `LogReader` is a class. Its fields
  are the active file and `_lastMaxOffset`. `WatchDirectory` picks the file to follow.
  `ReadFile`/`OnCreated` switch to a file at its current end. Each poll tick of
  `ReadAsync` does one of three things:
  - stays idle when the length is unchanged;
  - otherwise reads every line past the offset and moves the offset to where reading
    stopped;
  - throws when the active file has vanished.

  The directory is a value passed to each operation. The root `Program` keeps the same
  tailer in static fields (`_file`, `_lastMaxOffset`, `ReadFile`, `OnCreated`,
  `ReadLinesAsync`). That is the same state machine, so it is modelled once.
- **The event stream** (`MotorTownStream`, `motor_town.dfy`). `MotorTown.ReadAsync`
  classifies each tailed line and skips `null`. It drops events stamped before the
  moment streaming began, and a classification exception ends the stream. The
  `MotorTown` constructor creates the API client only when the game's config enables it.
- **Routing** (`Router`, `router.dfy`). `GetConfigByGameEvent` picks the per-kind
  message configuration. `GetMessageParams` fills in the channel, the text and the embed
  from it. `SendEvent` sends to the channel only when that channel is a message
  channel. `Run` does this for each event in turn.
- **Admin API envelope** (`WebApi`, `web_api.dfy`). `GetResult` checks the status code
  first, then a missing body, then the `succeeded` flag. The listing, count and
  player-action calls are built on it.
- **Slash commands** (`BotCommands`, `bot_interaction.dfy`). `HandleInteraction`
  dispatches on the exact command name to six handlers. Each makes at most one API
  call and replies only after that call has returned.
- **The older single-file bot** (`LegacyProgram`, `legacy_program.dfy`). The root
  `Program.cs` has its own copy of the parser, the `PushDiscord` filter, the router and
  the API-client setup. Each copy is proved to agree with the current code.

Library calls whose behaviour is not part of the repository are function parameters:
- the Scriban template rendering (`FormatTemplate`);
- `Color.Parse`;
- the check that a channel is a message channel;
- the admin server's responses.

The current time (`DateTime.Now`) and each snapshot of the log directory are
parameters too.

## Model

| member | source | states |
|---|---|---|
| Text.Split | src/MotorTownDiscordBot/MotorTown/GameEvent.cs:26 | `Split(' ')` always yields at least one token, and no token contains the separator |
| Text.Join | src/MotorTownDiscordBot/MotorTown/GameEvent.cs:33 | joining no parts gives the empty string; otherwise the result starts with the first part |
| Text.JoinSplit | src/MotorTownDiscordBot/MotorTown/GameEvent.cs:26-33 | joining the split tokens with the same separator gives back the original text |
| Text.SplitJoin | src/MotorTownDiscordBot/BotInteraction.cs:145-146 | splitting a join gives back the parts, when no part contains the separator |
| Text.SplitCons | src/MotorTownDiscordBot/MotorTown/GameEvent.cs:26 | the text before the first separator is the first token, and the rest splits on its own |
| Text.TrimEnd | src/MotorTownDiscordBot/MotorTown/GameEvent.cs:32-33 | `TrimEnd` returns a prefix that does not end in a trimmed character, and drops only trimmed characters |
| Text.TrimStart | src/MotorTownDiscordBot/MotorTown/GameEvent.cs:40 | the mirror image at the front of the text (the front half of `Trim('(', ')')`) |
| Text.TrimEndDrop | src/MotorTownDiscordBot/MotorTown/GameEvent.cs:32 | a trailing trimmed character makes no difference to the result |
| Text.TrimEndNoop | src/MotorTownDiscordBot/MotorTown/GameEvent.cs:33 | text that does not end in a trimmed character is returned unchanged |
| Text.Trim | src/MotorTownDiscordBot/MotorTown/GameEvent.cs:40 | `Trim` never lengthens the text, and a non-empty result neither starts nor ends with a trimmed character |
| Text.TrimNoop | src/MotorTownDiscordBot/MotorTown/GameEvent.cs:40 | `Trim` leaves unchanged any text whose two ends are not trimmed characters |
| Timestamp.DaysInMonth | src/MotorTownDiscordBot/MotorTown/GameEvent.cs:28 | the Gregorian month length used to validate a date is between 28 and 31 |
| Timestamp.ParseExact | src/MotorTownDiscordBot/MotorTown/GameEvent.cs:28 | `ParseExact` accepts a token only if it has the exact 21-character bracketed shape and names a valid date and time |
| Timestamp.Format | src/MotorTownDiscordBot/MotorTown/GameEvent.cs:28 | the format `[yyyy.MM.dd-HH.mm.ss]` renders every valid time in exactly 21 characters |
| Timestamp.ParseFormat | src/MotorTownDiscordBot/MotorTown/GameEvent.cs:28 | round trip: parsing the rendering of any valid time gives that time back |
| Timestamp.FormatParse | src/MotorTownDiscordBot/MotorTown/GameEvent.cs:28 | round trip: every token that parses is the rendering of the time it parses to, so the format accepts one spelling per time |
| Timestamp.Before | src/MotorTownDiscordBot/MotorTown/MotorTown.cs:47 | a time is never before an equal time (its order properties are `BeforeIsStrictTotalOrder`) |
| Timestamp.BeforeIsStrictTotalOrder | src/MotorTownDiscordBot/MotorTown/MotorTown.cs:47 | the `<` on times that decides which events are dropped is irreflexive, transitive, total on distinct times and asymmetric |
| GameEvents.Sections | src/MotorTownDiscordBot/MotorTown/GameEvent.cs:26 | a line always has a token 0, so the timestamp read never runs off the end |
| GameEvents.Classify | src/MotorTownDiscordBot/MotorTown/GameEvent.cs:30-56 | every event carries the line and the parsed time; every failure is a missing token at an index from the token count up to 4 |
| GameEvents.ParseLog | src/MotorTownDiscordBot/MotorTown/GameEvent.cs:24-57 | a bad-timestamp exception occurs exactly when token 0 does not parse; an event's time is valid and renders back to token 0; a missing-token failure names an index past the last token |
| GameEvents.LoginPlayerId | src/MotorTownDiscordBot/MotorTown/GameEvent.cs:39 | the login id is no longer than the last token, and has no parenthesis at either end |
| GameEvents.TrimParens | src/MotorTownDiscordBot/MotorTown/GameEvent.cs:40 | trimming the parentheses off `(id)` gives back the id |
| GameEvents.ChatTokens | src/MotorTownDiscordBot/MotorTown/GameEvent.cs:26 | a chat line splits into stamp, `[CHAT]`, `player:` and the message's own words |
| GameEvents.LoginTokens | src/MotorTownDiscordBot/MotorTown/GameEvent.cs:26 | a login line splits into exactly five tokens: stamp, `Player`, `Login:`, the player and `(id)` |
| GameEvents.LogoutTokens | src/MotorTownDiscordBot/MotorTown/GameEvent.cs:26 | a logout line splits into exactly four tokens |
| GameEvents.AdminTokens | src/MotorTownDiscordBot/MotorTown/GameEvent.cs:26 | an admin line splits into exactly five tokens |
| GameEvents.ChatLine | src/MotorTownDiscordBot/MotorTown/GameEvent.cs:30-35 | every chat line (any stamp, any space-free player, any message) gives back the player less every trailing `:` (the player itself when it does not end in `:`), and the whole message, spaces included, less trailing newlines |
| GameEvents.LoginLine | src/MotorTownDiscordBot/MotorTown/GameEvent.cs:37-42 | every login line gives back the player and the id it was written with |
| GameEvents.LogoutLine | src/MotorTownDiscordBot/MotorTown/GameEvent.cs:45-49 | every logout line gives back its player, with the login flag clear |
| GameEvents.AdminLine | src/MotorTownDiscordBot/MotorTown/GameEvent.cs:51-54 | every admin line gives back the player and the admin it names |
| GameEvents.UnrecognizedExactly | src/MotorTownDiscordBot/MotorTown/GameEvent.cs:56 | `null` is returned if and only if the stamp parses, there is a token 1, and no rule's keywords match |
| GameEvents.ShortLinesFail | src/MotorTownDiscordBot/MotorTown/GameEvent.cs:30-53 | a line too short for the rule its keywords select throws; it never returns `null` |
| GameEvents.NewChatMessageEventAsWritten | src/MotorTownDiscordBot/MotorTown/GameEvent.cs:61-64 | the chat-event constructor as written keeps text, time and player, but leaves `Message` null |
| GameEventTests.ParseChatTestLine | tests/MotorTownDiscordBotTest/MotorTown/GameEventTests.cs:10-16 | the unit test's chat line yields a chat event for `McRay` at 2025-02-06 19:12:49 with message `biraz garip geliyor` |
| GameEventTests.ChatMessageLostAsWritten | src/MotorTownDiscordBot/MotorTown/GameEvent.cs:63 | on that same line, the constructor as written does not deliver the message the test expects |
| GameEventTests.ParseLoginTestLine | tests/MotorTownDiscordBotTest/MotorTown/GameEventTests.cs:22-29 | the login test line yields a login for `McRay` with id `76561197997411952` at 17:12:35 |
| GameEventTests.ParseLogoutTestLine | tests/MotorTownDiscordBotTest/MotorTown/GameEventTests.cs:35-41 | the logout test line yields a logout for `McRay` at 22:13:57 |
| GameEventTests.ParseBanTestLine | tests/MotorTownDiscordBotTest/MotorTown/GameEventTests.cs:47-53 | the ban test line yields a ban of `McRay` by `Arend` at 22:13:57 |
| GameEventTests.LegacyParseChatTestLine | tests/MotorTownDiscordBotTest/ProgramTests.cs:8-14 | the older parser gives the chat test line its player, time and message |
| GameEventTests.LegacyParseLoginTestLine | tests/MotorTownDiscordBotTest/ProgramTests.cs:20-26 | the older parser reads the login test line as a login by `McRay` |
| GameEventTests.LegacyParseLogoutTestLine | tests/MotorTownDiscordBotTest/ProgramTests.cs:32-38 | the older parser reads the logout test line as a logout by `McRay` |
| GameEventTests.LegacyParseBanTestLine | tests/MotorTownDiscordBotTest/ProgramTests.cs:44-50 | the older parser reads the ban test line as a ban of `McRay` by `Arend` |
| LogReading.Lookup | src/MotorTownDiscordBot/MotorTown/LogReader.cs:77-78 | a path is found if and only if some listed file has it, and then the content is that file's |
| LogReading.LineEnd | src/MotorTownDiscordBot/MotorTown/LogReader.cs:36 | a line ends at a line break, or at the end of the text |
| LogReading.LineHasNoBreak | src/MotorTownDiscordBot/MotorTown/LogReader.cs:36 | no `\n` and no `\r` lies inside a line |
| LogReading.ReadLine | src/MotorTownDiscordBot/MotorTown/LogReader.cs:36 | `ReadLine` returns a break-free slice starting at the position, and always advances |
| LogReading.SplitLinesSingle | src/MotorTownDiscordBot/MotorTown/LogReader.cs:36-39 | reference splitter: text without a newline is one line |
| LogReading.SplitLinesCons | src/MotorTownDiscordBot/MotorTown/LogReader.cs:36-39 | reference splitter: the text up to the first newline is the first line |
| LogReading.LinesFromCount | src/MotorTownDiscordBot/MotorTown/LogReader.cs:36-39 | the read loop yields nothing at the end of the text, and otherwise at least one line and no more lines than characters left |
| LogReading.LinesFromIsSplitLines | src/MotorTownDiscordBot/MotorTown/LogReader.cs:36-39 | with no `\r`, the read loop yields exactly the text split on `\n`, with no empty last line after a final newline |
| LogReading.LinesFromShift | src/MotorTownDiscordBot/MotorTown/LogReader.cs:32-39 | what is read after a seek depends only on the text past the seek position |
| LogReading.ReadLines | src/MotorTownDiscordBot/MotorTown/LogReader.cs:32-42 | the read loop yields the lines from the offset on, and stops at the end of the text (or at the offset, when it lies past the end) |
| LogReading.GetLastLogFile | src/MotorTownDiscordBot/MotorTown/LogReader.cs:63-72 | as written: an empty listing throws; otherwise the last file *listed* is chosen |
| LogReading.GetLastLogFileIgnoresWriteTime | src/MotorTownDiscordBot/MotorTown/LogReader.cs:69-71 | as written, write times have no effect on the choice |
| LogReading.NewestIndex | src/MotorTownDiscordBot/MotorTown/LogReader.cs:69-71 | the intended choice: a file no other file is newer than, and the last such file in the listing |
| LogReading.NewestLogFile | src/MotorTownDiscordBot/MotorTown/LogReader.cs:63-72 | corrected choice: an empty listing is an error; otherwise a listed file is chosen |
| LogReading.LastListedIsNotNewest | src/MotorTownDiscordBot/MotorTown/LogReader.cs:69-71 | a two-file listing where the code as written picks the older file |
| LogReading.ReadFileStep | src/MotorTownDiscordBot/MotorTown/LogReader.cs:75-80 | `_file` is always set; the offset becomes the file's length when the file exists; otherwise the offset is kept and the call throws |
| LogReading.WatchDirectoryAsWritten | src/MotorTownDiscordBot/MotorTown/LogReader.cs:47-53 | startup as written: it fails exactly on an empty listing; otherwise it follows the last listed file from its current end |
| LogReading.WatchDirectoryStep | src/MotorTownDiscordBot/MotorTown/LogReader.cs:47-53 | startup fails exactly on an empty listing; otherwise it follows the newest file from its current end |
| LogReading.TickStep | src/MotorTownDiscordBot/MotorTown/LogReader.cs:17-43 | a tick never changes the file and never moves the offset backwards; it throws exactly when the active file is gone, and then changes nothing; after a successful tick the offset is at or past the file's end |
| LogReading.TickOnGrowth | src/MotorTownDiscordBot/MotorTown/LogReader.cs:28-42 | on a file that has not shrunk, a tick moves the offset to the file's length and consumes exactly the text in between |
| LogReading.TickYieldsLinesOfNewText | src/MotorTownDiscordBot/MotorTown/LogReader.cs:28-42 | a tick yields exactly the lines of the new text, and the offset moves by exactly that text's length; without `\r` those are the text's `\n`-separated lines |
| LogReading.SecondTickIsIdle | src/MotorTownDiscordBot/MotorTown/LogReader.cs:28-29 | polling again with nothing written yields nothing and changes nothing |
| LogReading.AppendOnlyRunReadsEverythingOnce | src/MotorTownDiscordBot/MotorTown/LogReader.cs:14-45 | over any run of ticks on a file that only grows, the text consumed is exactly what was appended after the start offset, and the offset ends at the file's end |
| LogReading.StartupSkipsHistory | src/MotorTownDiscordBot/MotorTown/LogReader.cs:8-12 | after construction, the first tick yields only the lines appended since; the history already in the file is never replayed |
| LogReading.StartupSkipsHistoryAsWritten | src/MotorTownDiscordBot/MotorTown/LogReader.cs:8-12 | the same for the startup as written: the first tick after it yields only the lines appended to the file it chose |
| LogReading.TickAfterContent | src/MotorTownDiscordBot/MotorTown/LogReader.cs:28-42 | a tick whose offset stands at the end of earlier content yields exactly the lines appended after it |
| LogReading.LogReader.constructor | src/MotorTownDiscordBot/MotorTown/LogReader.cs:4-6 | the fields start out empty: no file, offset 0 |
| LogReading.LogReader.Open | src/MotorTownDiscordBot/MotorTown/LogReader.cs:8-12 | construction runs the directory watch; it fails exactly as `WatchDirectoryStep` does, and otherwise leaves that step's state in a fresh reader |
| LogReading.LogReader.ReadFile | src/MotorTownDiscordBot/MotorTown/LogReader.cs:75-80 | the new fields and the outcome are exactly those of `ReadFileStep` |
| LogReading.LogReader.OnCreated | src/MotorTownDiscordBot/MotorTown/LogReader.cs:82-85 | a created file becomes the active file, exactly as `ReadFile` does |
| LogReading.LogReader.Tick | src/MotorTownDiscordBot/MotorTown/LogReader.cs:19-43 | one tick updates the fields and yields the lines exactly as `TickStep` does |
| MotorTownStream.CreateWebApi | src/MotorTownDiscordBot/MotorTown/MotorTown.cs:17-18 | the API client exists exactly when the game config enables it, with the config's port and password |
| MotorTownStream.Parsed | src/MotorTownDiscordBot/MotorTown/MotorTown.cs:45 | each line is classified on its own |
| MotorTownStream.FilterEvents | src/MotorTownDiscordBot/MotorTown/MotorTown.cs:43-49 | no more events than results, and every event is stamped at or after the start time |
| MotorTownStream.ReadEvents | src/MotorTownDiscordBot/MotorTown/MotorTown.cs:40-50 | no more events than lines, and no event is stamped before the start time |
| MotorTownStream.ForwardedAtOrAfter | src/MotorTownDiscordBot/MotorTown/MotorTown.cs:47 | an event is kept exactly when its time equals the start time or comes after it |
| MotorTownStream.ReadEventsSingle | src/MotorTownDiscordBot/MotorTown/MotorTown.cs:45-48 | one line: its event is yielded exactly when the line is recognised and not stamped before the start; the stream fails exactly when the line fails to classify |
| MotorTownStream.ParsedAppend | src/MotorTownDiscordBot/MotorTown/MotorTown.cs:45 | classifying two stretches of lines together is classifying each stretch on its own |
| MotorTownStream.ReadEventsAppend | src/MotorTownDiscordBot/MotorTown/MotorTown.cs:43-49 | the stream is incremental: later lines add to the earlier events; after a failure they add nothing |
| MotorTownStream.FilterEventsAppend | src/MotorTownDiscordBot/MotorTown/MotorTown.cs:43-49 | the same, for classified lines |
| MotorTownStream.FilterFollowsOrder | src/MotorTownDiscordBot/MotorTown/MotorTown.cs:43-49 | each event comes from its own result, at strictly increasing positions |
| MotorTownStream.EventsFollowLineOrder | src/MotorTownDiscordBot/MotorTown/MotorTown.cs:40-50 | no reordering and no duplication: the events are the parses of lines at strictly increasing positions, each event's text being its own line |
| Router.RouteKindOf | src/MotorTownDiscordBot/Program.cs:131-139 | chat and ban events go to their own route; a session goes to the login or logout route by its flag (each is an if-and-only-if) |
| Router.GetConfigByGameEvent | src/MotorTownDiscordBot/Program.cs:125-142 | no route without a message configuration; otherwise each kind of event gets its own configured route |
| Router.Rendered | src/MotorTownDiscordBot/Program.cs:94-97 | an optional template is rendered exactly when present |
| Router.BuildEmbed | src/MotorTownDiscordBot/Program.cs:102-119 | each embed part is set exactly when configured: the colour is parsed, the title and description are rendered, and the thumbnail URL is copied as is |
| Router.BuildMessageParams | src/MotorTownDiscordBot/Program.cs:91-122 | the configured channel is kept; text and embed are present exactly when configured, and rendered from their templates |
| Router.GetMessageParams | src/MotorTownDiscordBot/Program.cs:85-123 | no message exactly when there is no route; otherwise the message is built from that route |
| Router.SendEvent | src/MotorTownDiscordBot/Program.cs:74-83 | a message is sent exactly when there are params and the channel is a message channel, and then it is those params |
| Router.Deliveries | src/MotorTownDiscordBot/Program.cs:33-49 | at most one message per event; nothing without a message configuration; every message goes to a message channel |
| Router.DeliveriesAppend | src/MotorTownDiscordBot/Program.cs:37-48 | sending is decided per event: the messages for two stretches of the stream are those of the first stretch together with those of the second, listed in stream order |
| Router.DeliveriesSingle | src/MotorTownDiscordBot/Program.cs:37-48 | one event on its own sends exactly what `SendEvent` sends for its params, and nothing otherwise; with `DeliveriesAppend` this fixes what `Run` sends for every stream |
| Router.RoutedEventIsSent | src/MotorTownDiscordBot/Program.cs:74-83 | an event with a route whose channel is a message channel is sent, as the params built from that route |
| Router.UnroutedEventSendsNothing | src/MotorTownDiscordBot/Program.cs:76-77 | an event without a route sends nothing |
| WebApi.GetResult | src/MotorTownDiscordBot/MotorTown/WebAPI.cs:67-84 | success exactly when the status is 2xx, the body is present and `succeeded` holds, and then the body is returned; each failing check gives its own error, status first |
| WebApi.IsSuccessStatus | src/MotorTownDiscordBot/MotorTown/WebAPI.cs:69 | `EnsureSuccessStatusCode` accepts exactly the statuses of the 2xx class |
| WebApi.StatusCheckedFirst | src/MotorTownDiscordBot/MotorTown/WebAPI.cs:69 | a non-2xx status decides the outcome whatever the body says |
| WebApi.OkMeansSucceeded | src/MotorTownDiscordBot/MotorTown/WebAPI.cs:78-83 | every envelope returned has `succeeded` set and is the body received |
| WebApi.ActionRequest | src/MotorTownDiscordBot/MotorTown/WebAPI.cs:43-65 | every player action is a body-less POST under `/player/` |
| WebApi.ActionRequestDecodes | src/MotorTownDiscordBot/MotorTown/WebAPI.cs:45-61 | the path is the action's path followed by `?unique_id=` and the id, so the id can be read back from it |
| WebApi.ActionRequestInjective | src/MotorTownDiscordBot/MotorTown/WebAPI.cs:45-61 | distinct actions or ids never produce the same request |
| WebApi.Values | src/MotorTownDiscordBot/MotorTown/WebAPI.cs:31 | the dictionary's values in order, one per entry |
| WebApi.GetPlayerCount | src/MotorTownDiscordBot/MotorTown/WebAPI.cs:18-24 | the count is returned exactly when the envelope succeeds with data; envelope errors pass through |
| WebApi.GetPlayerList | src/MotorTownDiscordBot/MotorTown/WebAPI.cs:26-32 | null data gives a null list, not an error; otherwise the dictionary's values are returned |
| WebApi.GetPlayerBanList | src/MotorTownDiscordBot/MotorTown/WebAPI.cs:34-40 | null data is an error here; otherwise the dictionary's values are returned |
| WebApi.ListingsAgree | src/MotorTownDiscordBot/MotorTown/WebAPI.cs:26-40 | the two listings agree on every response where the ban list succeeds, and the ban list fails exactly where the player list is null or fails |
| WebApi.PlayerActionResult | src/MotorTownDiscordBot/MotorTown/WebAPI.cs:46-48 | a kick, ban or unban that returns always returns `true`; its errors are the envelope's |
| BotCommands.FindOption | src/MotorTownDiscordBot/BotInteraction.cs:165 | the value is that of the first option with that name, whichever position it is at; with no such option the result is null |
| BotCommands.AfterCall | src/MotorTownDiscordBot/BotInteraction.cs:174-175 | a reply is sent exactly when the call returned; an exception is recorded exactly when it threw |
| BotCommands.OutcomeOf | src/MotorTownDiscordBot/BotInteraction.cs:174 | a call returns normally exactly when its result is not an error, and otherwise carries that error |
| BotCommands.Entry | src/MotorTownDiscordBot/BotInteraction.cs:145 | an entry is the name, then ` (`, then the unique id, then `)`, and nothing else |
| BotCommands.ListReply | src/MotorTownDiscordBot/BotInteraction.cs:145-146 | no players give the empty text; otherwise the reply starts with the first player's entry |
| BotCommands.Entries | src/MotorTownDiscordBot/BotInteraction.cs:145 | one `name (unique_id)` entry per player, in array order |
| BotCommands.ListReplyLines | src/MotorTownDiscordBot/BotInteraction.cs:145-146 | with no newline in a name or an id, the reply splits back into exactly one entry per player |
| BotCommands.HandlePlayerAction | src/MotorTownDiscordBot/BotInteraction.cs:163-204 | no call is made exactly when `player-id` is missing, and then the handler replies that it is required; otherwise the action is called with that id |
| BotCommands.ActionReplies | src/MotorTownDiscordBot/BotInteraction.cs:174-203 | after a returned call, kick replies "Player kicked" while ban and unban both reply "Player (id) banned"; a failed call gives no reply and records its error |
| BotCommands.HandlePlayerList | src/MotorTownDiscordBot/BotInteraction.cs:149-161 | the player list is always requested; when it returns there is a reply and no failure, and when it throws there is no reply and its error is the failure |
| BotCommands.PlayerListReply | src/MotorTownDiscordBot/BotInteraction.cs:152-160 | after the call returns: the empty-list text when the list is null or empty; otherwise, when no name or id contains a newline, one line per player in order |
| BotCommands.HandleBanList | src/MotorTownDiscordBot/BotInteraction.cs:136-147 | the ban list is always requested; when it returns there is a reply and no failure, and when it throws there is no reply and its error is the failure |
| BotCommands.BanListReply | src/MotorTownDiscordBot/BotInteraction.cs:138-146 | after the call returns: the empty-ban-list text when the list is empty; otherwise, when no name or id contains a newline, one line per banned player in order |
| BotCommands.HandleAnnounce | src/MotorTownDiscordBot/BotInteraction.cs:124-134 | a missing or empty message is ignored outright (no call, no reply); otherwise that message is sent, "Message sent" is replied exactly when the call returns, and a thrown call gives no reply and is the failure |
| BotCommands.HandleInteraction | src/MotorTownDiscordBot/BotInteraction.cs:96-122 | each of the six command names runs its own handler (kick, ban and unban the player action of that name); any other name does nothing; no handler both replies and fails; a failure always follows a call |
| LegacyProgram.LegacyClassify | Program.cs:168-193 | the older rules stamp every event with the parsed time |
| LegacyProgram.LegacyParseLog | Program.cs:162-194 | the older parser throws on a bad stamp exactly when token 0 does not parse, and every event's time renders back to token 0 |
| LegacyProgram.LegacyParseAgrees | Program.cs:162-194 | both parsers classify every line alike: the same exceptions, the same `null`s, the same events less the fields the older events lack |
| LegacyProgram.LegacyClassifyAgrees | Program.cs:168-193 | the older rules agree with the current ones on any tokens |
| LegacyProgram.PushDiscordFilter | Program.cs:61-68 | the older loop forwards only events stamped at or after the start |
| LegacyProgram.ForgetAll | Program.cs:270-309 | each current event maps to the older event with the same time, player and kind |
| LegacyProgram.Forget | Program.cs:270-309 | an older event keeps the time, the player and the kind of the current one, with the chat message, the login flag and the admin |
| LegacyProgram.ForgetResult | Program.cs:162-194 | the older parser's outcome has the same shape: an exception with the same error, `null`, or the same event less the fields the older events lack |
| LegacyProgram.PushDiscordEvents | Program.cs:58-71 | the older loop sends no more events than lines, and none stamped before the start |
| LegacyProgram.PushDiscordFilterAgrees | Program.cs:61-68 | the older filter forwards, over classified lines, what the current filter forwards |
| LegacyProgram.PushDiscordAgrees | Program.cs:58-71 | `PushDiscord` forwards the same events as `MotorTown.ReadAsync`, in the same order, and stops at the same exception |
| LegacyProgram.LegacyGetConfigByGameEvent | Program.cs:143-160 | the older bot's per-kind routing |
| LegacyProgram.LegacyRouteAgrees | Program.cs:143-160 | both bots route every event the same way |
| LegacyProgram.LegacyGetMessageParams | Program.cs:104-141 | the older message is absent exactly when there is no route; otherwise it is built from the route as in the current bot |
| LegacyProgram.LegacyCreateWebApi | Program.cs:21-24 | the older bot creates an API client exactly when the settings hold a `web_api` section, with its port and password |

## Left out

- Bytes and characters: the log is read as characters. `_lastMaxOffset` and
  `BaseStream.Length`/`Position` are byte counts in the code, but the model counts
  characters. The two agree for ASCII logs. `StreamReader`'s buffering and decoder
  are not modelled.
- `ReadLine`'s line breaks: `\n`, `\r` and `\r\n` all end a line, as in .NET.
- Four behaviours of the code that a reader might not expect. The model keeps each
  as the code has it:
  - A last line still being written, with no newline yet, is yielded as it stands,
    and the offset moves past it. When the rest of that line arrives it is read as
    a line of its own (LogReader.cs:36-42).
  - A blank line is not skipped. `""` splits into one empty token, and `ParseExact`
    throws on it (GameEvent.cs:26-28).
  - A classification exception is not caught. Neither `MotorTown.ReadAsync`
    (MotorTown.cs:43-49) nor `PushDiscord` (Program.cs:61-68) catches it, so it ends
    the stream.
  - A tick on an active file that has vanished throws. `_file.Open` is not guarded
    (LogReader.cs:24-26).
- Timers, `FileSystemWatcher`, `Task.Run` and concurrency are replaced by explicit
  calls: `Tick` for a timer tick, `OnCreated` for a watcher event. Interleavings of
  the watcher callback with a tick in progress are not modelled.
- The directory and its files are immutable snapshots passed to each call. Their
  paths stand for `FileInfo` objects, and the `*.log` filter is taken as already
  applied.
- `DateTime.Now` is a parameter. `DateTime` is modelled to the second, which is what
  the format carries. The parameter `now` stands for `DateTime.Now` rounded up to the
  next whole second. Every log time is a whole second, and for a whole second `t`,
  `t < DateTime.Now` holds exactly when `t` is before that rounded-up time. So the
  filter at MotorTown.cs:47 and Program.cs:63 is modelled exactly.
- Scriban `FormatTemplate` and `Color.Parse` are function parameters. The embed is
  the `Embed` value `BuildEmbed` fills in, standing for the result of
  `EmbedBuilder.Build`; its length limits are not checked. So a `Color.Parse` failure,
  and the `ParseSrtingFormatTest` template test
  (tests/MotorTownDiscordBotTest/MotorTown/GameEventTests.cs:56-64), are not modelled.
- Discord plumbing is not modelled:
  - login, `StartAsync` and `RegisterCommands`;
  - `UpdatePresence` and its presence text; the `GetPlayerCount` call it makes is
    modelled;
  - `SlashCommandHandler`'s `Task.Run`;
  - the channel lookup. Whether a channel is a message channel is a parameter, and
    sending is the returned message, not an effect.
- `SendMessage` (the announce call) has no definition in `WebAPI.cs`. Its outcome is a
  parameter of the admin server.
- JSON deserialisation is not modelled: `GameConfig.FromJSON`, `ReadGameConfig`,
  `AConfigurationClass`, and reading the response body (`ReadFromJsonAsync`). Configs
  and responses are given as values. A body that fails to deserialise and a null body
  are the same case.
- `PasswordHandler`, the `HttpClient` base address and the transport are not
  modelled. A request is modelled as its verb, path and body.
- `AConfigurationClass.GetPath` and `Path.Combine` are not modelled: the directory is
  given.
- `Dictionary` enumeration order is taken to be the order of a sequence of entries.
- `ulong` channel ids are modelled as `nat`, without the 64-bit bound.
- Router.SendEvent: `GetChannelAsync` failures and `SendMessageAsync` exceptions are
  not modelled. `SendEvent` is `async void`, so the `try`/`catch` in `Run`
  (Program.cs:37-48) does not catch them. Such an exception is raised on the thread
  pool and ends the process.
- Router.DeliveriesAppend: the messages are listed in stream order, but the code does
  not promise that order on Discord. `Run` calls `SendEvent` without awaiting it, so
  the sends of consecutive events may overlap and arrive in any order. The model
  states which messages are sent, not the order in which they arrive.
- LogReading.WatchDirectoryStep: the reader object (`LogReader.Open`) starts from the
  newest log file, which is the corrected choice. The startup as written, from the
  last listed file, is `WatchDirectoryAsWritten`. The property that history is
  skipped is proved for both (`StartupSkipsHistory`, `StartupSkipsHistoryAsWritten`).
- LogReading.LinesFromIsSplitLines: the equality with a plain `\n` split is proved only
  for text without `\r`; with `\r` in the text, lines are as `ReadLine` ends them.
- GameEvents.NewChatMessageEventAsWritten: only the field assignment at line 63 is
  modelled as written. The rest of the model carries the message (see Findings).

## Findings

| source | as written | input that shows it | evidently intended | confidence | as-written member | corrected member |
|---|---|---|---|---|---|---|
| src/MotorTownDiscordBot/MotorTown/GameEvent.cs:63 | the constructor's parameter is named `Message`, like the field, so `Message = Message;` assigns the parameter to itself and the read-only field stays `null` | the unit-test line `[2025.02.06-19.12.49] [CHAT] McRay: biraz garip geliyor\n` gives an event whose `Message` is `null`, not `biraz garip geliyor` | `this.Message = Message`, as in the root Program.cs:289 | high; not executed | GameEventTests.ChatMessageLostAsWritten | GameEventTests.ParseChatTestLine |
| src/MotorTownDiscordBot/MotorTown/LogReader.cs:69-71 | `Files.OrderBy(...)` returns a new sequence, which is discarded, so `Files.Last()` is the last file in directory-listing order (root Program.cs:244-246 has the same code) | listing `[new.log (written at 2), old.log (written at 1)]`: `old.log` is chosen | follow the most recently written log file | high; not executed | LogReading.LastListedIsNotNewest | LogReading.WatchDirectoryStep |
