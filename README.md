# Miau WhatsApp bot core, modelled in Dafny

Miau is a WhatsApp bot written in TypeScript on top of the Baileys client
library. It keeps one connection to WhatsApp alive, reconnecting when the
disconnect reason allows. It routes incoming messages to slash commands
(`/help`, `/sticker` or `/s`, `/audio`, `/video`) and answers in English,
Spanish or Portuguese. Messages that may reach the AI chat are filtered by
JID ignore rules and a group-chat gate. A short per-user conversation history
is kept. Stickers carry pack metadata in an EXIF block.

This project models the deterministic core of that bot and proves what each
piece promises. There is one Dafny module per source file:

- `ConnectionUtils` (connection_utils.dfy): the disconnect classifier.
- `Connection` and `Dispatch` (connection.dfy, dispatch.dfy):
  - the `WhatsAppConnection` class with its fields, its connect guard, its close and open handling, and its bounded reconnect counter;
  - the dispatch loop, which delivers every message of a batch to every registered handler in order.
  - Backend events, suspension points and handler outcomes are inputs.
  - `process.exit(1)` is a terminal state.
- `MessageHandler` and `CommandHandler`: content extraction, command detection, routing, the `parseCommand` tokenizer and command dispatch.
- `Commands`, `VideoCommand` and `StickerCommand`: the command table, help text, and the branching of the video and sticker commands.
  - The calls a handler makes (replies, downloads, sends) form a sequence of `Effect`s (effects.dfy).
  - Which call throws is an input.
- `IgnoreJids`: the `JidIgnoreManager` class, with its set and pattern list.
- `Validation`, `VectorDb` and `Environment`: the group gate, the in-memory context store, and the derivation of the configuration from the environment.
- `I18n`, `Translations` and `TranslationTables`: the `t` lookup with English and path fallbacks and placeholder replacement, and the per-language merge of the translation tables.
- `Logger`: level mapping, the per-method gates and separator lines.
- `StickerUtils`, `StickerBuilder`, `Exif` and `MessageUtils`: emoji validation over UTF-16 code units, the sticker id, option defaults and quality clamping, the EXIF block, and media classification.
  - The EXIF block is a little-endian TIFF header (TIFF Revision 6.0, section 2) with one IFD entry: tag 0x5741, type 7 (UNDEFINED).

Shared helpers are `Strings` (JavaScript string operations on `seq<char>` and
optional values) and `Messages` (the shape of a WhatsApp message).

Inputs instead of behaviour:

- The clock, random bytes, the network, the Baileys socket, the file system, the regular-expression engine for user patterns, and JSON/UTF-8 encoding.
- Where the source awaits a call that may throw, the model takes which call throws as data.

## Model

| member | source | states |
|---|---|---|
| ConnectionUtils.ShouldReconnect | src/connection/connectionUtils.ts:8-55 | reconnection is refused exactly for the codes 401, 403, 411, 440 and 500; a temporary code, an unknown code and a missing code all reconnect |
| ConnectionUtils.ReasonLogOf | src/connection/connectionUtils.ts:28-54 | the unknown-reason warning is logged exactly for a code that neither list holds and no branch of its own handles, and such a code always reconnects |
| ConnectionUtils.ClassificationTable | src/connection/connectionUtils.ts:12-38 | the verdict and log line of each named disconnect reason, including that connection-lost and timed-out share code 408 |
| Connection.WhatsAppConnection.constructor | src/connection/connection.ts:18-24 | a new manager has no socket, a zero counter, the flag down, an empty registry and has delivered nothing |
| Connection.WhatsAppConnection.OnMessage | src/connection/connection.ts:29-31 | the handler is appended to the end of the registry and nothing else changes |
| Connection.WhatsAppConnection.GetSocket | src/connection/connection.ts:36-38 | the current socket field is returned |
| Connection.WhatsAppConnection.Connect | src/connection/connection.ts:43-55 | with an attempt in flight the call becomes a waiter; otherwise it raises the in-progress flag and starts an attempt |
| Connection.WhatsAppConnection.CompleteConnect | src/connection/connection.ts:57-101 | a created socket is stored, gets the update listener and is returned; a creation error is rethrown with the socket field untouched; the flag comes down either way |
| Connection.WhatsAppConnection.PollWaiting | src/connection/connection.ts:46-53 | a waiter keeps waiting while the flag is up, then returns the socket if one is set and otherwise starts its own attempt |
| Connection.WhatsAppConnection.OnConnectionUpdate | src/connection/connection.ts:109-163 | a close clears the socket, then schedules a retry below the ceiling, resets the counter when no retry is wanted, or exits; an open resets the counter and attaches one more message listener to the socket; the counter never exceeds 5 |
| Connection.WhatsAppConnection.DispatchBatch | src/connection/connection.ts:235-259 | one listener's run appends exactly the batch's dispatch log: message by message, a store call when the message qualifies, then one call per registered handler in order |
| Connection.WhatsAppConnection.FireReconnect | src/connection/connection.ts:130-142 | a fired reconnect timer enters `connect` like any other call |
| Connection.WhatsAppConnection.OnUpsert | src/connection/connection.ts:156-259 | the delivery log grows by the batch's dispatch log once for every `messages.upsert` listener the socket carries: one per open, none before the first |
| Connection.WhatsAppConnection.Disconnect | src/connection/connection.ts:294-304 | a set socket is logged out once and cleared; without one nothing happens |
| Connection.RunKeepsCeiling | src/connection/connection.ts:124-158 | no run of events takes the reconnect counter above 5 |
| Connection.RetryCeiling | src/connection/connection.ts:124-153 | between resets the counter grows by exactly the number of reconnects scheduled, which is at most 5 minus its starting value |
| Connection.CeilingExits | src/connection/connection.ts:121-153 | a retryable close at the ceiling exits the process and no further timer is consumed |
| Connection.CloseOutcomes | src/connection/connection.ts:112-147 | a close always clears the socket; below the ceiling a retryable close counts one attempt and sets one timer; a permanent close resets the counter and sets none |
| Connection.OpenResets | src/connection/connection.ts:156-161 | an open sets the counter to 0 and adds one message listener to the socket; in the reset-free stretch after it the counter equals the number of reconnects scheduled, which is at most 5 |
| Connection.OpensAttachListeners | src/connection/connection.ts:156-161 | a socket that reports open n times carries n more message listeners |
| Connection.SingleFlight | src/connection/connection.ts:43-55 | two connect calls back to back start one attempt; the waiter returns the created socket, or after a failure the still-set socket or its own new attempt |
| Dispatch.DeliveryIsolated | src/connection/connection.ts:239-257 | whatever throws, message i is the i-th delivery and reaches every registered handler exactly once, in registry order, with the batch's socket |
| Dispatch.OutcomesIrrelevant | src/connection/connection.ts:243-256 | whether a store or handler call throws changes neither which calls are made nor whether the message is stored |
| Dispatch.StoresQualifying | src/connection/connection.ts:242-248 | exactly the messages with an id, a chat and a payload are handed to the store, in batch order |
| Dispatch.SecondHandlerStillCalled | src/connection/connection.ts:251-256 | a first handler that always throws does not keep the second handler from any message |
| Dispatch.Repeat | src/connection/connection.ts:160-235 | n listeners on one socket cause n times the deliveries of one |
| Dispatch.RepeatBlock | src/connection/connection.ts:235-259 | each listener's block of the repeated log is the whole dispatch log of the batch |
| MessageHandler.FirstTruthy | src/handlers/messageHandler.ts:10-17 | the result is the first non-empty candidate, every earlier one being empty or missing, or None when all are |
| MessageHandler.MessageContent | src/handlers/messageHandler.ts:9-18 | the text is never the empty string and is the first non-empty of conversation, extended text, image, video and document caption |
| MessageHandler.MessageType | src/handlers/messageHandler.ts:23-26 | the payload's first property name, or "unknown" when there is no payload, no property or an empty name |
| MessageHandler.Route | src/handlers/messageHandler.ts:41-103 | a message is ignored exactly when it is a status broadcast, the bot's own, chatless or textless; it runs a command exactly when its text starts with "/"; otherwise its text is put to the group-chat gate |
| MessageHandler.ConversationFirst | src/handlers/messageHandler.ts:11 | a non-empty conversation text wins over every caption |
| MessageHandler.ImageCaptionBeforeVideo | src/handlers/messageHandler.ts:13-14 | with no conversation or extended text, the image caption wins over the video and document captions |
| MessageHandler.EmptyConversationSkipped | src/handlers/messageHandler.ts:11-12 | an empty conversation string is skipped like a missing one |
| MessageHandler.CommandRouted | src/handlers/messageHandler.ts:69-70 | a slash command from someone else goes to the command handler and never to the gate |
| MessageHandler.OwnMessagesIgnored | src/handlers/messageHandler.ts:57 | the bot's own messages are ignored whatever they say |
| MessageHandler.PrivateTextConsidered | src/handlers/messageHandler.ts:85-97 | in a private chat a non-command text always passes the gate |
| CommandHandler.RunLength | src/handlers/commandHandler.ts:23 | the `\S+` alternative matches the maximal run without white space |
| CommandHandler.QuotedLength | src/handlers/commandHandler.ts:23 | a quoted alternative matches exactly when the quote opens, is followed by a non-quote and closes later, and the match is quote, non-quotes, quote |
| CommandHandler.TokenLength | src/handlers/commandHandler.ts:23 | the first alternative that matches wins: double-quoted, then single-quoted, then a maximal word |
| CommandHandler.Tokens | src/handlers/commandHandler.ts:23 | every token of the global match is a double-quoted run, a single-quoted run or a word |
| CommandHandler.RunLengthOf | src/handlers/commandHandler.ts:23 | a run of non-white-space ends at the white space after it |
| CommandHandler.PlainToken | src/handlers/commandHandler.ts:23 | a plain word before white space or the end is one token |
| CommandHandler.TokensOfWords | src/handlers/commandHandler.ts:23 | plain words joined by one white-space character tokenize back into the words |
| CommandHandler.PlainThenSpace | src/handlers/commandHandler.ts:23 | a plain word and a white-space character are followed by the tokens of the rest |
| CommandHandler.QuotedToken | src/handlers/commandHandler.ts:23 | a double-quoted run is one token, inner white space included, and the scan resumes after it |
| CommandHandler.Unquote | src/handlers/commandHandler.ts:29-37 | a token wrapped in matching quotes loses exactly its first and last character; any other token is kept |
| CommandHandler.TrimmedAlready | src/handlers/commandHandler.ts:20 | a string without white space at either end is its own trim |
| CommandHandler.JoinEnds | src/handlers/commandHandler.ts:20 | a space-joined list of non-empty words starts with the first word's first character and ends with the last word's last |
| CommandHandler.PlainUnquoted | src/handlers/commandHandler.ts:29-37 | a plain word comes through the unquoting unchanged |
| CommandHandler.UnquoteQuoted | src/handlers/commandHandler.ts:29-37 | a double-quoted argument loses exactly its two quotes |
| CommandHandler.ParseWords | src/handlers/commandHandler.ts:18-40 | "/" and space-separated plain words parse into the lowercased first word and the other words as written |
| CommandHandler.ParsePlainTokens | src/handlers/commandHandler.ts:26-37 | plain tokens come through `parseCommand` unchanged, apart from the lowercased command name |
| CommandHandler.WordsTokens | src/handlers/commandHandler.ts:20-23 | the stripped text of "/" and space-separated plain words is those words as tokens |
| CommandHandler.DoubleSlash | src/handlers/commandHandler.ts:20 | only one leading "/" is removed: "//w" is the command "/w" |
| CommandHandler.DoubleSlashTokens | src/handlers/commandHandler.ts:20-23 | the stripped text of "//w" is the single plain token "/w" |
| CommandHandler.ParseQuotedArgument | src/handlers/commandHandler.ts:18-40 | a double-quoted argument keeps its inner white space and loses its quotes |
| CommandHandler.QuotedArgumentTokens | src/handlers/commandHandler.ts:20-23 | a name, a space and a quoted argument strip and tokenize into two tokens |
| CommandHandler.SlashBody | src/handlers/commandHandler.ts:20 | after the slash, a body with no white space at either end needs no trimming |
| CommandHandler.BodyTokens | src/handlers/commandHandler.ts:23 | a name, a space and a quoted argument are two tokens |
| CommandHandler.ParseOfTokens | src/handlers/commandHandler.ts:26-39 | the command is the first token lowercased and the arguments are the other tokens unquoted |
| CommandHandler.SlashOptional | src/handlers/commandHandler.ts:20 | text without a leading slash parses as the same text with one |
| CommandHandler.ParseBlank | src/handlers/commandHandler.ts:23-26 | a slash followed only by white space gives the empty command and no arguments |
| CommandHandler.HandleCommandCases | src/handlers/commandHandler.ts:52-68 | without an exception a known command runs once with the parsed arguments, `s` running the sticker command, and any other name gets one not-found reply naming it |
| CommandHandler.HandleCommandFailure | src/handlers/commandHandler.ts:69-78 | an exception from the run or the reply is answered with one command-error reply after the failed call |
| CommandHandler.HandleCommandSize | src/handlers/commandHandler.ts:51-78 | the handler makes one call, or two when the call throws |
| Effects.Attempted | src/commands/sticker.ts:13-59 | the calls made inside a `try` are a prefix of the plan; when a call throws they end with that call, otherwise they are the whole plan |
| Effects.TryCatch | src/commands/sticker.ts:13-63 | the attempted calls come first; without a throw they are the whole plan; with one, exactly the `catch` block's calls follow them |
| Effects.TryCatchPrefix | src/commands/sticker.ts:13-63 | the calls made are a prefix of the plan followed by the recovery calls on a failure |
| Commands.KeyPathKeys | src/commands/index.ts:21-22 | a command's string path is the join of its keys: `commands.<command>.<key>` as written, `<command>.<key>` corrected |
| Commands.Shown | src/commands/index.ts:21-22 | a translated message is shown as its text |
| Commands.Load | src/commands/index.ts:19-22 | a loaded command keeps its own name and handler |
| Commands.Lookup | src/commands/index.ts:29 | `commands[name]` finds a command exactly when some entry has that key, and the command is stored under it |
| Commands.Values | src/commands/index.ts:51 | `Object.values` lists the commands in insertion order |
| Commands.LookupAt | src/commands/index.ts:97-103 | the first entry with a key is the one looked up |
| Commands.AliasLookup | src/commands/index.ts:99-100 | `s` and `sticker` look up the same command |
| Commands.TableFound | src/commands/index.ts:97-103 | each of the five keys finds a command named after it, the sticker command for `s` |
| Commands.TableMissing | src/commands/index.ts:97-103 | any other name finds nothing |
| Commands.TableLookup | src/commands/index.ts:97-103 | the table finds a command exactly for its five keys, the alias sharing the sticker command |
| Commands.FindIndex | src/commands/index.ts:53 | `findIndex` gives the first position holding the handler, or -1 when none does |
| Commands.FindIndexAt | src/commands/index.ts:53 | a position holding the handler with no earlier one is what `findIndex` gives |
| Commands.UniqueStep | src/commands/index.ts:51-54 | the filter over one more entry extends the previous result by that entry exactly when it is the first with its handler |
| Commands.UniqueKept | src/commands/index.ts:51-54 | every kept entry is the first one with its handler |
| Commands.UniqueOrdered | src/commands/index.ts:51-54 | kept entries come in order of first occurrence, no two sharing a handler |
| Commands.UniqueCovers | src/commands/index.ts:51-54 | every handler of the list is kept through its first entry |
| Commands.UniqueTable | src/commands/index.ts:51-54 | the unique commands of the table are help, sticker, audio and video: the alias is dropped |
| Commands.LinesAppend | src/commands/index.ts:56-58 | the lines of two lists are the lines of the first followed by those of the second |
| Commands.LinesContain | src/commands/index.ts:56-58 | every command of the list has its line in the listing |
| Commands.GeneralHelp | src/commands/index.ts:47-60 | the text built line by line is the heading, a blank line, one line per unique command and the hint after a blank line |
| Commands.AppendLines | src/commands/index.ts:56-58 | the `forEach` appends exactly the lines of the list, in order |
| Commands.LinesOfFour | src/commands/index.ts:56-58 | the lines of four commands are their four lines in order |
| Commands.GeneralHelpListsCommands | src/commands/index.ts:51-58 | the general help lists help, sticker, audio and video, each once, and not the alias |
| Commands.HelpFirstArgument | src/commands/index.ts:27-28 | only the first argument counts, and its case does not |
| Commands.HelpDetailsCases | src/commands/index.ts:27-44 | a known name gives that command's details filled with its name, description and usage; an unknown one gives the not-found message naming the lowercased argument |
| Commands.AsWrittenString | src/commands/index.ts:21-22 | under en and es, and any language read as en, a command string read at its written path is that path itself |
| Commands.AsWrittenDescription | src/commands/index.ts:21 | under en and es each command's description is its own description path, such as "commands.help.description" |
| Commands.AsWrittenUsage | src/commands/index.ts:22 | under en and es each command's usage is its own usage path |
| Commands.CorrectedString | src/i18n/translations/index.ts:21-26 | at the corrected path an available language reads the string from its own command table |
| Commands.LoadFallback | src/i18n/index.ts:31-35 | an unavailable language loads every command as English does |
| Commands.CorrectedDescription | src/i18n/translations/index.ts:21-26 | with the corrected paths a command's description is the one in the language's command table |
| Commands.CorrectedUsage | src/i18n/translations/index.ts:21-26 | with the corrected paths its usage is the one in the language's command table |
| Commands.CorrectedHelpStringValid | src/commands/index.ts:27-62 | with the corrected paths every help message of an available language comes from its help table, placeholders filled |
| Commands.CorrectedHelpString | src/commands/index.ts:27-62 | the same for any configured language, read as English when unavailable |
| IgnoreJids.TrimmedParts | src/utils/jids/ignoreJids.ts:114 | one part per comma-separated piece, each the trimmed piece, empty pieces kept |
| IgnoreJids.AddedParts | src/utils/jids/ignoreJids.ts:115 | the `forEach` adds exactly the parts: each part is in the added set and nothing else is |
| IgnoreJids.JidIgnoreManager.constructor | src/utils/jids/ignoreJids.ts:4-5 | a new manager ignores no jid and no pattern |
| IgnoreJids.JidIgnoreManager.ShouldIgnoreJid | src/utils/jids/ignoreJids.ts:10-60 | the chain of early returns, patterns tried in order, answers true exactly when some ignore rule fires: empty jid, status broadcast, newsletter or announcement, the bot's own number, a listed jid, a matching pattern, "temp" or "invalid", or a jid that is neither a user nor a group chat |
| IgnoreJids.JidIgnoreManager.AddIgnoredJid | src/utils/jids/ignoreJids.ts:65-68 | the jid joins the set; the patterns stay |
| IgnoreJids.JidIgnoreManager.RemoveIgnoredJid | src/utils/jids/ignoreJids.ts:73-76 | the jid leaves the set; the patterns stay |
| IgnoreJids.JidIgnoreManager.AddIgnoredPattern | src/utils/jids/ignoreJids.ts:81-89 | a pattern that compiles is appended; an invalid one changes nothing |
| IgnoreJids.JidIgnoreManager.ClearIgnoredJids | src/utils/jids/ignoreJids.ts:94-98 | both the set and the pattern list become empty |
| IgnoreJids.JidIgnoreManager.GetIgnoredJids | src/utils/jids/ignoreJids.ts:103-108 | the ignored jids and the pattern sources are returned |
| IgnoreJids.JidIgnoreManager.LoadIgnoredJidsFromString | src/utils/jids/ignoreJids.ts:113-117 | every trimmed comma-separated part is added to the set, and only those |
| IgnoreJids.JidIgnoreManager.AddAll | src/utils/jids/ignoreJids.ts:115 | the loop adds the parts one by one, reaching the set of all of them |
| IgnoreJids.NotIgnoredIsStandard | src/utils/jids/ignoreJids.ts:32-59 | a jid that passes is a user or group chat and is not on the list |
| IgnoreJids.AddThenIgnored | src/utils/jids/ignoreJids.ts:65-68 | after `addIgnoredJid(j)`, `shouldIgnoreJid(j)` answers true whatever the bot jid and patterns |
| IgnoreJids.ClearedAdmits | src/utils/jids/ignoreJids.ts:94-98 | after clearing, a standard chat jid free of the reserved words is not ignored when there is no bot jid |
| IgnoreJids.EmptyOwnNumber | src/utils/jids/ignoreJids.ts:26-29 | a bot jid starting with ":" makes every jid count as the bot's own |
| IgnoreJids.LoadThenIgnored | src/utils/jids/ignoreJids.ts:113-117 | every trimmed part of a loaded string is ignored afterwards |
| Validation.BotNumber | src/services/ai/validation.ts:58 | the bot's number has no colon and is the part of the bot id before its first colon, or "" without an id |
| Validation.BotFullJid | src/services/ai/validation.ts:59 | the bot's jid is its number followed by "@s.whatsapp.net" |
| Validation.ValidateGroupMessage | src/services/ai/validation.ts:32-98 | a group message passes exactly when group chat is on, the whitelist check is off or lists the group, and the bot is @-mentioned, listed in the mentions, named by a trigger word or by its name in any case, or quoted |
| Validation.ShouldProcessMessage | src/services/ai/validation.ts:9-27 | a private chat always passes; a group chat passes exactly when group chat is on, the whitelist check lets the group through and the bot is addressed |
| Validation.GroupsDisabled | src/services/ai/validation.ts:42-45 | with group chat off no group message passes |
| Validation.UnsetWhitelistRefusesGroups | src/services/ai/validation.ts:48-55 | with both whitelist variables unset every group message is refused |
| Validation.WhitelistOffByFalse | src/services/ai/validation.ts:48-55 | setting the whitelist variable to "false" lets an @-mention through in a group that is not listed |
| Validation.TriggerWordMatches | src/services/ai/validation.ts:74-76 | a trigger word configured in any case, with spaces around it, matches a text that contains it in any case |
| Environment.ValidateLanguage | src/config/environment.ts:9-14 | the language is always available: a set, available language is kept and anything else gives "en" |
| Environment.NonEmpty | src/config/environment.ts:35-43 | `.filter(Boolean)` keeps exactly the non-empty parts, no more of them than there were |
| Environment.NonEmptyAll | src/config/environment.ts:35-43 | filtering parts that are all non-empty keeps them all |
| Environment.Whitelist | src/config/environment.ts:35-37 | every whitelist entry is non-empty and comma-free |
| Environment.WhitelistOfJoin | src/config/environment.ts:35-37 | non-empty comma-free entries joined by commas read back as the same entries, untrimmed |
| Environment.TriggerWordsForm | src/config/environment.ts:40-43 | every trigger word kept is non-empty, trimmed and lowercase |
| Environment.FoldedIsFolded | src/config/environment.ts:42 | a trimmed, lowercased word is its own trim and its own lowercase |
| Environment.EnvOf | src/config/environment.ts:17-74 | the switches are true exactly for "true", or for "false" for the two inverted ones; the language is available; whitelist entries are non-empty; trigger words are folded |
| Environment.WhitelistFlagInverted | src/config/environment.ts:34 | the whitelist flag is false, so the check runs, unless the variable is exactly "false" |
| Environment.WhitelistUnset | src/config/environment.ts:34-37 | with both whitelist variables unset, the whitelist is enforced and empty |
| Environment.Defaults | src/config/environment.ts:19-73 | unset or empty settings give "Miau", "info", "openai", "en" and empty lists |
| Environment.HistoryLimitDefaults | src/config/environment.ts:46-51 | the history limits default to the text "10" in private chats and "15" in groups |
| Environment.DefaultLimitValues | src/config/environment.ts:46-51 | those default numerals denote 10 and 15 |
| VectorDb.NewEntry | src/services/ai/vectordb.ts:24-36 | the entry keeps the chat, message, response and clock reading, and records the sender's id and name only for a group chat with a sender |
| VectorDb.OfChat | src/services/ai/vectordb.ts:64-65 | the filter keeps exactly the entries of the chat |
| VectorDb.Insert | src/services/ai/vectordb.ts:67 | one insertion step adds exactly the entry to the sequence |
| VectorDb.InsertNewestFirst | src/services/ai/vectordb.ts:67 | inserting into a newest-first sequence keeps it newest first |
| VectorDb.SortNewestFirst | src/services/ai/vectordb.ts:67 | the sort is a permutation of its input with timestamps never increasing |
| VectorDb.SliceEnd | src/services/ai/vectordb.ts:69 | `slice(0, limit \|\| 5)` ends at 5 for a missing or zero limit, at the limit when positive, and counts from the end when negative, never past the length |
| VectorDb.Selected | src/services/ai/vectordb.ts:64-69 | the selected entries all belong to the chat, are newest first, are as many as the slice allows and are drawn from the chat's entries, and no chat entry left out is newer than any entry taken |
| VectorDb.NewestPrefix | src/services/ai/vectordb.ts:66-69 | the first k entries of a newest-first sequence are its k most recent: nothing after them is newer than any of them |
| VectorDb.LaterNoNewer | src/services/ai/vectordb.ts:66-67 | in a newest-first sequence an entry at position k or later is no newer than one before k |
| VectorDb.SameChat | src/services/ai/vectordb.ts:64-67 | rearranging one chat's entries leaves only that chat's entries |
| VectorDb.SenderLabel | src/services/ai/vectordb.ts:79 | the label is never empty: the sender's name when set, else its id when set, else "Unknown member" |
| VectorDb.UserContext | src/services/ai/vectordb.ts:56-88 | there is no context exactly when no entry is selected; otherwise the block is the group or conversation header followed by the selected entries' lines, newest first, separated by blank lines |
| VectorDb.Lines | src/services/ai/vectordb.ts:76-83 | one formatted part per entry, in the entries' order |
| VectorDb.ContextSplitsIntoLines | src/services/ai/vectordb.ts:76-88 | when no entry's lines hold a blank line, splitting what follows the header on "\n\n" gives back each selected entry's lines, newest first |
| VectorDb.LineEnd | src/services/ai/vectordb.ts:80-82 | every entry's lines end with the closing quote of the bot's response |
| VectorDb.ContextStore.constructor | src/services/ai/vectordb.ts:14 | the store starts empty |
| VectorDb.ContextStore.StoreUserContext | src/services/ai/vectordb.ts:17-39 | exactly the new entry is appended |
| VectorDb.ContextStore.GetUserContext | src/services/ai/vectordb.ts:56-97 | the context of the current entries is returned |
| VectorDb.StoreKeepsEarlier | src/services/ai/vectordb.ts:39 | storing appends one entry for the chat and keeps every earlier entry in place |
| VectorDb.NoEntriesNoContext | src/services/ai/vectordb.ts:64-73 | with a missing or non-negative limit there is no context exactly when the chat has no entry |
| VectorDb.AtMostLimit | src/services/ai/vectordb.ts:69 | at most five entries without a limit or with limit 0, at most the limit otherwise |
| VectorDb.AllWhenFew | src/services/ai/vectordb.ts:64-69 | a chat with no more entries than the limit has all its entries used |
| I18n.IsValidLanguage | src/i18n/index.ts:76-78 | a language is valid exactly when it is "en", "es" or "pt" |
| I18n.ValidLang | src/i18n/index.ts:31-34 | `t` reads the configured language when it is available, and English otherwise |
| I18n.Placeholder | src/i18n/index.ts:61 | the placeholder is the key wrapped in one pair of braces |
| I18n.T | src/i18n/index.ts:27-64 | without replacements `t` never fails on a record it found |
| I18n.ResolveStep | src/i18n/index.ts:41-44 | the path is walked one key at a time |
| I18n.ResolveMissing | src/i18n/index.ts:42 | a missing key ends the walk, whatever follows it |
| I18n.InvalidLanguageIsEnglish | src/i18n/index.ts:31-35 | an unavailable configured language translates exactly as English |
| I18n.Outcomes | src/i18n/index.ts:41-63 | the language's own string wins, then the English string, then the path itself, and placeholders are filled in the found string |
| I18n.ReplaceNoPlaceholders | src/i18n/index.ts:60-63 | a string without any of the placeholders is returned unchanged |
| I18n.ReplaceIdentity | src/i18n/index.ts:60-63 | filling each placeholder with itself changes nothing |
| I18n.FillsPlaceholder | src/i18n/index.ts:60-63 | a `{key}` placeholder with no other brace around it is replaced by its value |
| I18n.PlaceholderAlone | src/i18n/index.ts:60-63 | a text that is just the placeholder becomes the value |
| I18n.PathKeys | src/i18n/index.ts:38 | a path joined from dot-free keys splits back into those keys |
| I18n.NoCommandsEntry | src/i18n/translations/en.ts:2-9 | neither the English nor the Spanish object has a `commands` entry |
| I18n.TranslateMissing | src/i18n/index.ts:55-57 | a path missing in the language and in English comes back as the path |
| I18n.CommandsPathIsPath | src/i18n/index.ts:46-57 | under en and es every `commands.` path comes back as the path itself |
| I18n.TranslateFound | src/i18n/index.ts:41-63 | a path leading to a string in the language's own object gives that string, placeholders filled |
| I18n.CommandKeysUndotted | src/i18n/translations/index.ts:21-26 | the command table names hold no dot |
| I18n.CommandResolve | src/i18n/index.ts:41-44 | in every language `<command>.<key>` leads into that language's table for the command |
| I18n.CommandPath | src/i18n/index.ts:27-64 | a `<command>.<key>` path whose key holds a string in the language's table gives that string, placeholders filled |
| I18n.TranslateFallback | src/i18n/index.ts:47-52 | a path missing in a language other than English but present in English gives the English string |
| I18n.EsStickerSuccessMissing | src/i18n/translations/commands/sticker.ts:29-52 | the Spanish sticker table has no `success` key |
| I18n.EnStickerSuccessFound | src/i18n/translations/commands/sticker.ts:24 | the English sticker table holds `success` as a string |
| I18n.PtStickerSuccessMissing | src/i18n/translations/commands/sticker.ts:53-76 | the Portuguese sticker table has no `success` key |
| I18n.StickerSuccessMissing | src/i18n/translations/commands/sticker.ts:29-76 | `sticker.success` leads nowhere in the es and pt objects |
| I18n.StickerSuccessInEnglish | src/i18n/translations/commands/sticker.ts:24 | `sticker.success` leads to the English success message |
| I18n.StickerSuccessIsEnglish | src/i18n/index.ts:47-52 | under es and pt `sticker.success` falls back to the English message |
| Translations.Get | src/i18n/index.ts:42 | a lookup finds a value exactly when the key is present, and the value is stored under the key |
| Translations.GetAt | src/i18n/index.ts:42 | the value under a key is the one at its first position |
| Translations.AssignGet | src/i18n/translations/index.ts:28-31 | after an assignment the key holds the new value and every other key its old one |
| Translations.AssignKeys | src/i18n/translations/index.ts:28-31 | an assignment keeps the keys and their order, adding a new key at the end |
| Translations.SpreadGet | src/i18n/translations/index.ts:28-31 | in `{...a, ...b}` each key of b has b's value and every other key a's |
| Translations.SpreadKeys | src/i18n/translations/index.ts:28-31 | `{...a, ...b}` starts with a's keys in a's order and has exactly the keys of a and b |
| Translations.KeysTail | src/i18n/translations/index.ts:28-31 | the keys of a record are its first key followed by the rest, the first not repeated when no key is |
| Translations.AssignNewKey | src/i18n/translations/index.ts:28-31 | assigning a key absent from the record appends it |
| Translations.SpreadNewKeys | src/i18n/translations/index.ts:28-31 | spreading keys that are all new appends them in order |
| Translations.MergeLookup | src/i18n/translations/index.ts:14-32 | a merged record gives each command key the command's value and every other key the core's |
| Translations.MergeKeys | src/i18n/translations/index.ts:14-32 | a merged record starts with the core keys, in order, and has exactly the core and command keys |
| Translations.CommandMerge | src/i18n/translations/index.ts:21-31 | the keys help, audio, sticker and video hold the command tables and every other key the core value |
| Translations.CommandMergeKeys | src/i18n/translations/index.ts:21-31 | the merged keys are the core keys in order, then the command keys the core lacks |
| Translations.EnMerge | src/i18n/translations/index.ts:14-32 | the English object is `core` followed by help, audio, sticker and video |
| Translations.EsMerge | src/i18n/translations/index.ts:14-32 | the Spanish object has the same keys in the same order |
| Translations.PtCoreKeys | src/i18n/translations/pt.ts:1-64 | pt's core keys are sticker, commands, video, audio and media, none repeated |
| Translations.PtStickerReplaced | src/i18n/translations/pt.ts:2-13 | pt's own `sticker` entry is replaced by the sticker command table |
| Translations.PtCoreKept | src/i18n/translations/pt.ts:14-63 | pt's `commands` and `media` entries stay as they are |
| Translations.PtMergeKeys | src/i18n/translations/index.ts:28-31 | the pt object keeps its core keys in their positions and adds only `help` |
| Translations.EnCommandEntries | src/i18n/translations/index.ts:21-26 | the English object's four command keys hold the English command tables |
| Translations.EsCommandEntries | src/i18n/translations/index.ts:21-26 | the same for Spanish |
| Translations.PtCommandEntries | src/i18n/translations/index.ts:21-26 | the same for Portuguese, the sticker table replacing the core entry |
| Translations.CommandEntry | src/i18n/translations/index.ts:14-40 | in every language each command key holds that language's table for the command |
| Translations.CommandStringEntries | src/i18n/translations/commands/help.ts:3-16 | every command table starts with `name`, `description` and `usage`, the last two strings |
| Translations.LeadingStrings | src/i18n/index.ts:42 | such a table finds `description` and `usage` at positions 1 and 2 |
| Translations.CommandStrings | src/i18n/translations/commands/audio.ts:3-16 | so `description` and `usage` are found as strings in every command table |
| Translations.GetText | src/i18n/index.ts:42 | in a record of strings every present key finds a string |
| Translations.HelpTables | src/i18n/translations/commands/help.ts:2-47 | the three help tables have the same seven keys, all strings |
| Translations.HelpEntry | src/i18n/translations/commands/help.ts:2-47 | each help key holds a string in the help table of every language and has no dot |
| Translations.HelpKeyText | src/i18n/translations/commands/help.ts:2-47 | a table of strings with the help keys finds each help key as a string |
| Translations.NoSpanishStickerSuccess | src/i18n/translations/commands/sticker.ts:29-52 | the Spanish sticker table has no `success` entry |
| Translations.NoPortugueseStickerSuccess | src/i18n/translations/commands/sticker.ts:53-76 | nor has the Portuguese one |
| Translations.EnglishStickerSuccess | src/i18n/translations/commands/sticker.ts:3-28 | the English sticker table does hold `success`, as a string |
| Translations.StickerSuccessEntry | src/i18n/translations/commands/sticker.ts:24 | of the entries kept, `success` comes right after name, description and usage and is a string |
| VideoCommand.ErrorReply | src/commands/video.ts:60-81 | the reply is one of `fileTooLarge`, `unsupportedFormat` and `downloadError`: `fileTooLarge` exactly when the message mentions "File too large" or "max-filesize", `downloadError` exactly when it mentions none of these and neither "No formats found" nor "not available" |
| VideoCommand.Deliver | src/commands/video.ts:33-55 | the calls end with exactly one send, of the downloaded path, as a file exactly when the download result asks for it; a download result is preceded by the status message for that choice, a bare path by nothing |
| VideoCommand.Plan | src/commands/video.ts:18-55 | without arguments the only call is `noUrl`; with arguments it is `providedUrl` naming the first argument, then the only download, of that argument, then the delivery |
| VideoCommand.HandleVideo | src/commands/video.ts:10-90 | without a throw the plan runs in full; a throw from the first reply ends with `generalError`; a later throw ends, right after the failed call, with the reply the error message selects |
| VideoCommand.NoUrl | src/commands/video.ts:18-23 | without arguments the first reply is `noUrl` and nothing is downloaded, whatever throws |
| VideoCommand.WithUrl | src/commands/video.ts:25-32 | with a URL and no throw, `providedUrl` with the first argument comes first and the download of that argument second |
| VideoCommand.DownloadFails | src/commands/video.ts:31-81 | a download that throws gives `providedUrl`, the download and the selected error reply, and nothing is sent |
| VideoCommand.FirstReplyFails | src/commands/video.ts:83-89 | a throw from the first reply gives that reply and `generalError` only |
| VideoCommand.SizeBeforeFormat | src/commands/video.ts:63-75 | "File too large" outranks "not available" when a message contains both |
| StickerCommand.Target | src/commands/sticker.ts:14-43 | a quoted message becomes the target with the quoting message's key; mentions without a quote give no target; otherwise the message itself is the target |
| StickerCommand.Plan | src/commands/sticker.ts:39-59 | one or two calls, the first a reply; a sticker is planned exactly when the target holds media, right after `creating`, from the target together with the command message and its arguments; otherwise the one reply is `noMediaInMention` without a target and `noMedia` with one |
| StickerCommand.HandleSticker | src/commands/sticker.ts:6-64 | without a throw the plan runs in full; a throw ends, right after the failed call, with `sticker.error` |
| StickerCommand.CreatesOnlyFromMedia | src/commands/sticker.ts:46-59 | a sticker is only created from a target that holds media, and always right after the `creating` reply |
| StickerCommand.QuotedIsTarget | src/commands/sticker.ts:17-22 | a quoted payload holding media is what the sticker is made from |
| StickerCommand.MentionWithoutQuote | src/commands/sticker.ts:23-42 | mentions without a quote always end in `noMediaInMention` and no sticker, whatever throws |
| StickerCommand.NoMediaNoSticker | src/commands/sticker.ts:45-53 | a plain message without media gets `noMedia` alone |
| StickerUtils.Scan | src/services/stickers/utils.ts:27-28 | the global scan cuts the text into matches and skipped units that concatenate back to the text, every match being an emoji of the pattern |
| StickerUtils.SkippedStartNoMatch | src/services/stickers/utils.ts:27-28 | the scan never skips a unit at which the pattern matches |
| StickerUtils.ExtractEmojis | src/services/stickers/utils.ts:43-45 | every extracted piece is an emoji of the pattern |
| StickerUtils.DropSeparators | src/services/stickers/utils.ts:59 | the result holds no comma and no space, and is empty exactly when the input holds only commas and spaces |
| StickerUtils.ValidateEmojis | src/services/stickers/utils.ts:53-76 | the result is present exactly when nothing but commas and spaces lies between the matches and there are one to three of them, and it is then the matches |
| StickerUtils.ScanSeparators | src/services/stickers/utils.ts:59 | commas and spaces are skipped one by one and never matched |
| StickerUtils.ScanEmojiFirst | src/services/stickers/utils.ts:27-28 | an emoji at the front of the text is matched first |
| StickerUtils.ScanSkip | src/services/stickers/utils.ts:27-28 | a unit that starts no match is skipped |
| StickerUtils.ScanSeparatorsMatches | src/services/stickers/utils.ts:59 | commas and spaces in front add no match |
| StickerUtils.ScanSeparatorsOthers | src/services/stickers/utils.ts:59 | commas and spaces in front are skipped one by one |
| StickerUtils.ScanJoin | src/services/stickers/utils.ts:43-59 | emojis joined by commas and spaces scan back to the same emojis with only separators between them |
| StickerUtils.ValidOfJoin | src/services/stickers/utils.ts:53-70 | one to three emojis joined by commas and spaces validate to exactly those emojis |
| StickerUtils.SeparatorsOnlyRefused | src/services/stickers/utils.ts:68-75 | text made only of commas and spaces has no emoji and is refused |
| StickerUtils.StrayUnitRefused | src/services/stickers/utils.ts:59-66 | any unit that is neither part of an emoji nor a separator makes the text invalid |
| StickerUtils.StrayUnitSkipped | src/services/stickers/utils.ts:59 | such a unit is among those the scan skips |
| StickerUtils.HexDigit | src/services/stickers/utils.ts:35 | a value below 16 becomes a lower-case hexadecimal digit |
| StickerUtils.DigitValue | src/services/stickers/utils.ts:35 | a hexadecimal digit is read back as the value it encodes |
| StickerUtils.Hex | src/services/stickers/utils.ts:35 | the hex text has two lower-case digits per byte |
| StickerUtils.DigitRoundTrip | src/services/stickers/utils.ts:35 | digit encoding loses nothing |
| StickerUtils.UnhexOfHex | src/services/stickers/utils.ts:35 | reading the hex text back gives the bytes |
| StickerUtils.StickerId | src/services/stickers/utils.ts:30-36 | the sticker id is 32 lower-case hexadecimal digits that encode the 16 random bytes |
| StickerBuilder.Quality | src/services/stickers/stickerBuilder.ts:36-39 | the quality always lies in 10..100; unset or 0 gives 80, a quality in range is kept, and one out of range is clamped to the nearer bound |
| StickerBuilder.MetadataOf | src/services/stickers/stickerBuilder.ts:41-48 | every option left out (or falsy, for strings) takes its default, every one given is kept, and the quality is clamped |
| StickerBuilder.Sticker.constructor | src/services/stickers/stickerBuilder.ts:29-49 | the sticker keeps its data and MIME type and the settled metadata |
| StickerBuilder.SettledIsFixed | src/services/stickers/stickerBuilder.ts:36-48 | settled metadata passed back as options settles to itself |
| StickerBuilder.Defaults | src/services/stickers/stickerBuilder.ts:17-24 | no options give empty pack and author, the default type, quality 80, a transparent black background and no emojis |
| StickerBuilder.QualityMonotone | src/services/stickers/stickerBuilder.ts:36-39 | clamping keeps the order of two positive qualities |
| Exif.LittleEndian | src/services/stickers/exif.ts:42 | `writeUIntLE` writes exactly the requested number of bytes |
| Exif.DecodeLittleEndian | src/services/stickers/exif.ts:42 | the written bytes decode to the value whenever it fits |
| Exif.HeaderStart | src/services/stickers/exif.ts:8-11 | the header is 22 bytes and opens a little-endian TIFF file with magic 42 and its first IFD at offset 8 |
| Exif.HeaderEntry | src/services/stickers/exif.ts:8-11 | the IFD holds one entry, tag 0x5741 of type 7, whose value offset 22 is the header's own length |
| Exif.Block | src/services/stickers/exif.ts:39-42 | the block is 22 bytes longer than the payload |
| Exif.BlockLayout | src/services/stickers/exif.ts:39-42 | the block keeps the header around a count, at bytes 14 to 17, that decodes to the payload length, and carries the payload from offset 22 on |
| Exif.Concat | src/services/stickers/exif.ts:39 | the new buffer holds the header followed by the payload |
| Exif.WriteUIntLE | src/services/stickers/exif.ts:42 | a value that fits four bytes overwrites exactly the four bytes at the offset with its little-endian form; a larger one throws and leaves the buffer alone |
| Exif.StickerExif.constructor | src/services/stickers/exif.ts:16-28 | the metadata holds the generated id, the pack as name, the author as publisher, and the emojis |
| Exif.StickerExif.AddMetadata | src/services/stickers/exif.ts:30-53 | the result is the saved image carrying the block built from the encoded metadata, or the input image when loading, writing the count or saving fails |
| Exif.WithMetadata | src/services/stickers/exif.ts:30-53 | the result is either the input image or the saved image carrying the block of the payload, and a successful save is never discarded |
| Exif.MetadataOfOptions | src/services/stickers/exif.ts:22-27 | the metadata built from settled options names the pack and publisher given or the empty default, lists no emojis when none were given, and has a 32-digit id |
| MessageUtils.SubtypeOf | src/utils/message/messageUtils.ts:21 | the extension of "top/sub" is sub |
| MessageUtils.ExtractMedia | src/utils/message/messageUtils.ts:11-42 | a result exists exactly for a message with an image, a video, or a document with an image or video MIME type; an image wins over a video and a video over a document, with their defaults "image/jpeg" and "video/mp4" and the extensions the code picks |
| MessageUtils.JpegSubtype | src/utils/message/messageUtils.ts:20-21 | the default image type gives the extension "jpeg" |
| MessageUtils.ImageDefaultsToJpeg | src/utils/message/messageUtils.ts:18-21 | an image without a MIME type is a JPEG image with extension "jpeg" |
| MessageUtils.VideoDocument | src/utils/message/messageUtils.ts:30-39 | a document of type "video/sub" is a video with extension sub |
| MessageUtils.OtherDocumentRefused | src/utils/message/messageUtils.ts:30-41 | a document with any other MIME type gives nothing |
| MessageUtils.SlashlessImageMime | src/utils/message/messageUtils.ts:20-21 | an image MIME type without a slash leaves the extension undefined |
| Logger.LevelNumber | src/config/logger.ts:71-73 | "warn" gives 1 and "debug" gives 3; every other name, "error" included, gives 2 |
| Logger.IntendedLevelNumber | src/config/logger.ts:71-73 | the level is between 0 and 3: 0 exactly for "error", 1 exactly for "warn", 3 exactly for "debug", and info for every other name |
| Logger.Threshold | src/config/logger.ts:142-280 | each output method's gate is a level from 0 to 3, error alone at 0 and debug alone at 3 |
| Logger.CommandMessage | src/config/logger.ts:248 | the command line starts with "User" and the user and ends with " executed /" and the command |
| Logger.Logger.constructor | src/config/logger.ts:67-69 | the level is fixed from the configured name and nothing has been written |
| Logger.Logger.Log | src/config/logger.ts:142-280 | the message is written, under the method's label, exactly when the level reaches the method's gate, and the level is unchanged |
| Logger.Logger.Command | src/config/logger.ts:221-250 | the message "User <user> executed /<command>" is written under COMMAND exactly when the info gate passes |
| Logger.LogOnce | src/config/logger.ts:142-280 | a fresh logger writes one record, with the method's label and the message, exactly when the gate passes, and none otherwise |
| Logger.ErrorsAndWarningsAlwaysPass | src/config/logger.ts:142-164 | under every level name, errors and warnings are written |
| Logger.DebugOnlyAtDebug | src/config/logger.ts:178-188 | debug messages are written exactly when the level name is "debug" |
| Logger.InfoUnlessWarn | src/config/logger.ts:166-280 | the info-level methods are silenced by "warn" and by no other name |
| Logger.ErrorLevelShowsInfo | src/config/logger.ts:71-73 | as written, the level name "error" gives level 2 and lets info messages through |
| Logger.IntendedErrorLevel | src/config/logger.ts:142-280 | with the intended lookup, "error" lets through errors and nothing else |
| Logger.IntendedAgrees | src/config/logger.ts:71-73 | the intended lookup agrees with the written one on every name but "error" |
| Logger.Repeat | src/config/logger.ts:284-292 | `repeat` gives n copies of the character and nothing else |
| Logger.CodesHaveNoRule | src/config/logger.ts:12-28 | no colour code holds the rule character |
| Logger.Side | src/config/logger.ts:288-289 | a grey run holds exactly 20 rule characters |
| Logger.PlainSeparator | src/config/logger.ts:283-297 | without a title the line holds exactly 60 rule characters and ends with the reset code |
| Logger.TitledCount | src/config/logger.ts:285-293 | with a title the line holds 40 rule characters besides the title's own |
| Logger.TitledShape | src/config/logger.ts:285-293 | with a title the line holds the title padded with one space on each side, and ends with the reset code |
| Strings.OrElse | src/services/stickers/stickerBuilder.ts:42-43 | the result is the default or the option's non-empty value; it differs from the default only for a present non-empty string, which it never turns into an empty result |
| Strings.BeforeFirst | src/i18n/index.ts:38 | the piece before the first separator is a prefix without the separator, followed by it when shorter than the string |
| Strings.Split | src/i18n/index.ts:38 | splitting always gives at least one piece |
| Strings.SplitJoin | src/i18n/index.ts:38 | the pieces hold no separator and joining them with it restores the string |
| Strings.SplitOfJoin | src/i18n/index.ts:38 | pieces free of the separator, joined with it, split back into themselves |
| Strings.SplitNone | src/i18n/index.ts:38 | a string without the separator is one piece |
| Strings.TrimStart | src/handlers/commandHandler.ts:20 | the leading white space, and only that, is removed |
| Strings.TrimEnd | src/handlers/commandHandler.ts:20 | the trailing white space, and only that, is removed |
| Strings.Lower | src/handlers/commandHandler.ts:26 | lowercasing keeps the length and maps each character by itself |
| Strings.ReplaceAbsent | src/i18n/index.ts:60-63 | a value with no occurrence of the placeholder is left as it is |
| Strings.ReplaceBySelf | src/i18n/index.ts:60-63 | replacing a placeholder by itself changes nothing |
| Strings.ReplaceFirst | src/i18n/index.ts:60-63 | the first occurrence of the pattern is replaced by the value and the scan goes on after it |
| Strings.ContainsHead | src/commands/video.ts:63-75 | a string without the first character of p does not contain p |
| Strings.ContainsPiece | src/commands/video.ts:63-75 | every string contains each of its pieces |
| Strings.SplitAt | src/i18n/index.ts:38 | the first piece of a split ends at the first separator and the rest is split on |
| Strings.SplitOnJoin | src/services/ai/vectordb.ts:84 | parts joined with a separator that cannot start inside any of them split back into the same parts |

## Left out

- Baileys socket creation, the auth state, QR rendering, `creds.update` and the group-metadata listeners (src/connection/connection.ts:59-98, 166-215) are not modelled: they are foreign-library and terminal I/O. The `messages.update`, reaction and receipt listeners only log, and are left out with them.
- The 100 ms wait loop and the 5 s reconnect delay are not modelled as time. The model has explicit steps instead: a waiting `connect` is polled, and a scheduled reconnect fires later.
- Real concurrency is not modelled. Other events may run only at the suspension steps the model names.
- A throw from inside a `catch` block, for example from the `sticker.error` reply, is not modelled. The catch blocks' own calls are taken to succeed.
- Logging calls are not part of the effect sequences of the command handlers, the message handler, the connection manager or the ignore rules. The logger's own gates are modelled in `Logger`.
- Logger: console colours of the message, timestamps, extra arguments, the file name of the day's log file, the creation of the log directory, the console-only `startup` banner, and the write to disk are not modelled.
- Logger.LevelNumber: a level name that is an inherited property of a JavaScript object, such as "toString", is not modelled. There the lookup returns a function, which compares false against every gate.
- TranslationTables: the nested translation tables are trimmed. They keep every top-level key and the entries the model reads. The other nested strings are constant text that no property here depends on.
- Commands.Lookup: the command table is a plain object literal, so in the source `commands[name]` also finds members inherited from `Object.prototype`. Of those, only "constructor" and "__proto__" survive lowercasing. The model treats them as missing keys.
- CommandHandler.HandleCommandCases: "/constructor" and "/__proto__" find a truthy inherited value in the source; calling `.execute` on it throws, and the reply is `core.commandError`. The model replies `help.notFound` for them.
- Commands.TableMissing: "constructor" and "__proto__" are not absent in the source, since they are inherited from `Object.prototype`. The model states them absent.
- Commands.TableLookup: lookups of the inherited keys "constructor" and "__proto__" are not modelled; the model finds nothing for them.
- Commands.HelpDetailsCases: "/help constructor" sends `commands.commandDetails` for the inherited `Object` function in the source (and "/help __proto__" for `Object.prototype`). The model sends `commands.help.notFound` for them.
- VectorDb.SliceEnd: a fractional `limit` is not modelled. `limit || 5` keeps it as given and `slice` truncates it toward zero.
- I18n.T: a path that ends at a subtree rather than a string, and prototype keys such as "constructor", are not modelled.
- I18n.T: each replacement is treated as a literal pattern `{key}` with a literal value. A key containing regular-expression syntax, and `$` patterns in a value, are not modelled.
- IgnoreJids: the regular-expression engine is not modelled. Whether a pattern source compiles and whether a compiled pattern matches a jid are inputs.
- CommandHandler: `\S` and `trim` use the ECMAScript white-space set written out. `toLowerCase` is modelled for ASCII and the Latin-1 capital letters only; other characters are kept.
- Environment: the numeric settings (the two history limits and `AI_MAX_COMPLETION_TOKENS`) are kept as the text handed to `parseInt`; `parseInt` itself is not modelled. `DecimalValue` only reads the default numerals "10" and "15". The floating-point settings (`parseFloat`) are not part of this model.
- StickerBuilder.Quality: qualities are whole numbers. Fractional and NaN qualities are not modelled.
- `Sticker.build` and `Sticker.toFile` (src/services/stickers/stickerBuilder.ts:51-74) are not modelled: they only delegate to the converter, the EXIF writer and the file system.
- `extractMetadata` (src/services/stickers/utils.ts:84-108) is not modelled: it is WebP loading and `JSON.parse`.
- Exif: `JSON.stringify`, UTF-8 encoding and the WebP library's load and save are inputs. `addMetadata` is modelled from the encoded payload on.
- StickerUtils.StickerId: `randomBytes(16)` is an input.
- MessageUtils.ExtractMedia: the download of the media (`downloadMediaMessage`) and the debug log line are not modelled.
- VectorDb.SortNewestFirst: the order it gives entries with equal timestamps (earlier entries first, as a stable sort keeps them) is built in but not stated in its contract.
- Connection.WhatsAppConnection.OnUpsert: when a socket carries several `messages.upsert` listeners, their runs on one batch interleave at the handlers' await points. The model runs them one after another, in attachment order, so the order of deliveries across listeners is not captured.
- IgnoreJids.JidIgnoreManager.GetIgnoredJids: the jids are returned as a set. The insertion order that `Array.from` gives the list is not modelled.
- The audio command, the sticker creator, the media pipeline, the senders, the AI client and the caches sit outside this core and are not part of this model.

The model follows the code in these places, where a reader might expect otherwise:

- Dispatch reads the handler registry when a batch arrives. A handler registered after `open` therefore receives that socket's later batches.
- A `connect` call that waited for an attempt which failed starts an attempt of its own. It does not share the failure.
- The `sticker` command entry calls the sticker handler with the socket and the message only. The arguments `createSticker` receives are therefore undefined on the live path. `Commands.RunSticker` carries no arguments; `StickerCommand.HandleSticker` takes them as a parameter.
- Under English and Spanish, the command descriptions and usages are their own paths (see Findings).

## Findings

| source | as written | input that shows it | evidently intended | confidence | as-written member | corrected member |
|---|---|---|---|---|---|---|
| src/commands/index.ts:19-94 | command strings are read at `commands.<command>.description` and `commands.<command>.usage`; only the Portuguese core table has a `commands` entry | BOT_LANGUAGE=en: the description of `help` is the text "commands.help.description" | the strings are read at `<command>.<key>`, where every language's command tables put them | not executed | Commands.AsWrittenDescription, Commands.AsWrittenUsage | Commands.CorrectedDescription, Commands.CorrectedUsage, Commands.CorrectedHelpString |
| src/config/logger.ts:71-73 | the lookup falls back to 2 on every falsy value, and the value of "error" is 0 | LOG_LEVEL=error: info, whatsapp, command and success messages are still written | "error" gives 0, so that only errors are written | not executed | Logger.ErrorLevelShowsInfo | Logger.IntendedErrorLevel |
