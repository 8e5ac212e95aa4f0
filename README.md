# youtube-comments-telegram, modelled in Dafny

The bot relays new YouTube comments to Telegram chats. It has two parts:

- **The batch job** (`scripts/check-messages.js`) visits every subscription, a (channel, chat, locale) row of `youtube_channels`. For each one it:
  1. reads the five most recently recorded comment ids of the channel from `comments`;
  2. takes the leading run of the freshly fetched comment threads that are not among them;
  3. records each new comment with the current time;
  4. looks up the titles of the comments' videos;
  5. plans one Telegram message per new comment, one second apart, or a single "No new comments" message.
- **The bot's text handler** (`index.js`) answers chat messages:
  - `добавь <channel>` subscribes the chat to a channel;
  - `каналы` lists the chat's channels;
  - anything else gets a help text.

The project has four modules:

- `Basics` (`basics.dfy`): Option, distinctness, `Reverse`, and lodash's `uniq`.
- `Database` (`database.dfy`): the two SQLite tables.
  - `comments` is a class over a map keyed by comment id, with the insert and the "five newest rows" query.
  - `youtube_channels` is a class over a sequence of rows, with the insert that fails on a taken (channel, chat) primary key. The per-chat query is the module-level function `RowsForChat` over those rows.
- `CheckMessages` (`check_messages.dfy`): the batch job for one subscription.
  - `NewComments` is the `takeWhile`, and the insert loop sits on top of it.
  - It includes the video-id request, the title map and the message plan.
  - `NotifyChannel` runs the whole chain for one subscription.
- `Bot` (`bot.dfy`): the handler.
  - `Classify` models the regex `/добавь (.*)/`, with JavaScript's `.` not matching line terminators and an empty capture counting as no match.
  - `HandleText` runs the handler against the `youtube_channels` table.

Inputs from outside the model are parameters:
- The comments API's page and the videos API's answer are `Option` values; `None` means the call failed.
- `Date.now()` is a function `clock`, where the k-th insert of a batch reads `clock(k)`.
- Whether the database answers (the bot's queries, or the batch job's seen query) is a boolean `storeUp`.

## Model

| member | source | states |
|---|---|---|
| CheckMessages.NewComments | scripts/check-messages.js:111-116 | The new comments are a prefix of the fetched list, in fetched order. None of their ids is seen. The item right after the prefix has a seen id. The result is empty exactly when the list is empty or its first id is seen. |
| CheckMessages.NewCommentsIsLongest | scripts/check-messages.js:113-116 | The first k items all have unseen ids if and only if the result has at least k items. So the prefix is the longest unseen one, and an item after a seen one is never reported. |
| CheckMessages.NothingSeenAllNew | scripts/check-messages.js:111-116 | With no seen ids, the whole fetched page is new. |
| CheckMessages.RecordSeen | scripts/check-messages.js:119-123 | The insert loop: after it, the comments table is the old table with the ids inserted one by one in order, the k-th stamped with the k-th clock reading. |
| CheckMessages.TakeNewCommentsAsWritten | scripts/check-messages.js:111-127 | `takeNewComments` as written returns the new comments and inserts their ids in fetched (newest-first) order. No rows are inserted when there are no new comments. |
| CheckMessages.TakeNewComments | scripts/check-messages.js:111-127 | The corrected `takeNewComments`: it returns the same comments but inserts their ids oldest first. |
| CheckMessages.NewestRecordedLast | scripts/check-messages.js:118-124 | Assume a strictly rising clock, distinct page ids, every earlier row of the channel older than the batch's first reading, and the newest comment's id not yet a key in any channel. Then recording oldest first stamps the newest comment with the batch's last reading, and every other row of the channel is strictly older. |
| CheckMessages.SecondRunReportsNothing | scripts/check-messages.js:79-127 | Assume distinct page ids, a first run that found at least one new comment, the page's newest id not yet a key in any channel, every earlier row of the channel older than the batch's first clock reading, and a strictly rising clock. Then after the corrected recording, whatever five-newest answer the seen query gives, a second run over the same page finds no new comments. |
| CheckMessages.CrowdedOutOfWindow | scripts/check-messages.js:79-82 | A row with at least five strictly newer rows of its channel is never in the seen query's answer. |
| CheckMessages.AsWrittenReannouncesNewest | scripts/check-messages.js:118-124 | As written, one run recording more than five never-seen comments under a rising clock makes the next run over the same page report the newest comment again. |
| CheckMessages.SixCommentsReannounced | scripts/check-messages.js:118-124 | The concrete case: six new comments "a".."f" on an empty table, one millisecond apart. The first run reports all six and the second reports "a" again. |
| CheckMessages.VideoRequest | scripts/check-messages.js:129-139 | No comments means no lookup. Otherwise the requested ids have no duplicates and are exactly the comments' video ids. |
| Basics.Uniq | scripts/check-messages.js:137 | lodash `uniq`: distinct output holding the same members as the input, at most as long, and starting with the input's first element. |
| CheckMessages.TitlesSpec | scripts/check-messages.js:99-104 | The title map's keys are exactly the fetched videos' ids. Each id maps to the title of the last video listed with it. |
| CheckMessages.CollectTitles | scripts/check-messages.js:99-104 | The `reduce` loop builds the title map, one `Object.assign` per video. |
| CheckMessages.Notify | scripts/check-messages.js:141-179 | The plan is one "No new comments" message in the row's locale when there are no comments. Otherwise it is one "newCommentMessage" per comment, in order, all to the row's chat. The first goes at 0 ms and the delays strictly increase, the i-th at i*1000 ms. Each message carries its comment's template params. |
| CheckMessages.NotifyParams | scripts/check-messages.js:155-163 | A comment's message carries its comment id and its video's title, or `undefined` when the lookup did not return the video, unless the snippet has a field of that name. It always carries the snippet's `videoId` and every other snippet field unchanged. |
| CheckMessages.NotifyChannel | scripts/check-messages.js:78-109 | One subscription end to end, with the corrected oldest-first recording of `TakeNewComments` in place of the fetched-order inserts at lines 120-121. A failed seen query or a failed comments call changes nothing and sends nothing. Otherwise the new comments are the unseen prefix against a five-newest answer of the seen query, and they are recorded. The plan is "No new comments", or one message per comment with the looked-up titles. A failed video lookup sends nothing, even though the comments are already recorded. |
| Database.CommentsTable.Insert | scripts/check-messages.js:72 | `comment_id` alone is the primary key: the insert succeeds exactly when the id is absent from every channel, and a failed insert leaves the table unchanged. |
| Database.RecordedKeys | scripts/check-messages.js:119-123 | After recording, the keys are exactly the old keys plus the recorded ids. |
| Database.RecordedKeepsRows | scripts/check-messages.js:119-123 | Recording never rewrites an existing row, whichever channel it belongs to. |
| Database.RecordedStamps | scripts/check-messages.js:119-123 | Each distinct, previously absent id gets the row (channel, its clock reading). |
| Database.RecordedCount | scripts/check-messages.js:118-124 | Distinct new ids add exactly one row each. |
| Database.CommentsTable.Recent | scripts/check-messages.js:79-82 | The seen query answers with distinct ids of the channel's rows. There are min(5, rows of the channel) of them, newest first, and no row left out is newer than one returned. |
| Database.ChannelsTable.Insert | index.js:48-50 | The insert succeeds exactly when the (channel, chat) key is free. It then appends the row with locale "ru", and otherwise changes nothing. Key uniqueness is preserved. |
| Database.RowsForChat | index.js:57-59 | The per-chat query returns exactly the rows whose chat id equals the chat, and the key stays unique among them. |
| Bot.FindKeyword | index.js:46 | The leftmost occurrence of "добавь ", or none at all. |
| Bot.LineEnd | index.js:46 | The `(.*)` group runs to the first line terminator or to the end of the text, and holds no line terminator. |
| Bot.Classify | index.js:45-56 | An add carries the rest of the line after the leftmost "добавь ", which is non-empty and has no line break. The text is a list exactly when it equals "каналы". |
| Bot.ClassifyAdd | index.js:46-47 | If the leftmost "добавь " is followed by a character that is not a line terminator, the text is an add of the rest of that line, whatever else the text contains. |
| Bot.ClassifyHelp | index.js:46-75 | The text gets the help reply exactly when it is not "каналы" and its leftmost "добавь " (if any) ends the text or a line. |
| Bot.SplitJoin | index.js:65 | Joining newline-free lines with "\n" and splitting again gives the lines back. |
| Bot.ListTextLines | index.js:63-65 | If no channel id holds a newline, the list text splits into the header line followed by one "- <channel_id>" line per row. With no rows it is the header and one empty line. |
| Bot.ListReplyAsWritten | index.js:60-67 | The list reply as written. A query error gets the successful add's reply. A listing is Markdown whose lines are the header and one "- <channel_id>" per row, when no channel id holds a newline. |
| Bot.AddReply | index.js:51-54 | The add's reply is plain text, and it is "Канал добавлен!" exactly when the row went in. |
| Bot.ListErrorLooksLikeAdd | index.js:61 | As written, a failed list query gets exactly the reply the handler gives to a successful add, and not the reply to a failed add. |
| Bot.ListReply | index.js:60-67 | The corrected list reply. A query error gets the failed add's reply, "Что-то пошло не так :(". A listing reads as in the as-written reply. |
| Bot.ListErrorDistinguishable | index.js:61 | With the correction, a failed list query gets the failed add's reply. That differs from a successful add's reply and from every successful listing. |
| Bot.HandleText | index.js:45-76 | The handler, with the corrected list reply `ListReply` in place of line 61's. An add inserts (channel, chat, "ru") exactly when the database answers and the key is free. It replies "Канал добавлен!" then, and "Что-то пошло не так :(" otherwise. A list leaves the table unchanged and replies with that chat's rows, or the failure text. Anything else gets the help text as Markdown. |

## Left out

- The comments and videos API calls are inputs: a page of comment threads (each reduced to its top-level comment's id, video id and snippet fields) and a list of (id, title) videos. Paging parameters are not modelled.
- The video lookup sends one request with all ids. The model puts no limit on how many ids one request carries.
- Telegram `sendMessage`, `setTimeout` and the promise chain are not modelled. The result is a plan of (chat, message, delay) sends, and whether Telegram delivers them is not modelled.
- `i18n` rendering is an opaque (phrase, locale, params) message. The locale files are not part of this model.
- The batch driver (`initDatabase`, the un-awaited `channels.map(notifyChannel)`, `db.close()`) runs subscriptions concurrently. `NotifyChannel` models one subscription at a time, with no interleaving.
- Environment checks, dotenv, Sentry, webhook startup and the sqlite callback wrappers are configuration and I/O glue.
- Database.CommentsTable.Recent: rows with equal timestamps may come in any order. SQLite's actual tie order is not modelled, so with a clock that does not advance within a batch, neither insert order keeps the newest comment in the window.
- Database.CommentsTable.Insert: a batch insert that fails on a taken `comment_id` is modelled as skipped. The source runs the statement without a callback, so the error goes unhandled on the statement; that error and what it does to the running job are not modelled. Other storage errors of the inserts are not modelled either.
- CheckMessages.NotifyChannel: the batch job's inserts are modelled oldest first, the corrected order of the first finding below. The as-written fetched order is modelled by `TakeNewCommentsAsWritten`, but no end-to-end member composes it.
- CheckMessages.NotifyChannel: a failed seen query is the `storeUp` flag. It records and sends nothing, as in the source where the rejected query fails the whole chain. The comments API call still made in that case is not modelled.
- Bot.HandleText: a failed list query replies with the failure text, the corrected reply of the second finding below. The as-written reply is `ListReplyAsWritten`, but no handler member composes it.
- Bot.HandleText: storage errors are the single `storeUp` flag. An add fails only on a taken key or when the database does not answer.
- Database.RowsForChat: rows come in insertion order. SQLite returns them in primary-key order, so the model states which rows are listed but not their order.
- Chat ids are integers throughout. The TEXT affinity of `telegram_chat_id` and the conversion SQLite applies when comparing it are not modelled.
- A comment's `videoId` field is held apart from the rest of its snippet, and the message params take it from there. A stray `"videoId"` key in the rest of the snippet is overridden, so the params always carry the comment's own video id.
- JavaScript object semantics of the title map and the message params are not modelled, for example keys inherited from `Object.prototype`.
- The `CREATE TABLE IF NOT EXISTS` statements are the shape of the two table classes. Starting from an existing database is the same as starting from any table value.

## Findings

| source | as written | input that shows it | evidently intended | confidence | as-written member | corrected member |
|---|---|---|---|---|---|---|
| scripts/check-messages.js:118-124 | The new comments are inserted newest first, each stamped with `Date.now()`. Under an advancing clock the newest comment gets the oldest timestamp of its batch, and the seen query keeps only the five newest rows. | Six never-seen comments "a" (newest) to "f" on an empty table, the clock advancing 1 ms per insert. The next run's seen ids are "f","e","d","c","b", so "a" is reported again. That run's insert of "a" then fails on the taken key, which is not modelled (see "## Left out"). | The newest comment stays among the five newest rows, so a second run reports nothing. Inserting oldest first achieves this. | medium, not executed (needs the clock to advance within one batch) | CheckMessages.AsWrittenReannouncesNewest | CheckMessages.TakeNewComments |
| index.js:61 | A failed list query replies "Канал добавлен!" ("Channel added!"). | The "каналы" message while the SELECT fails. | The failure reply "Что-то пошло не так :(" used by the add branch. | high, not executed | Bot.ListErrorLooksLikeAdd | Bot.ListReply |
