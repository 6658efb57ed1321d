# Transaction tracker bot: dialogue and reports, in Dafny

This project models the core of a Telegram bot that lets a few allowed users log
investments and returns in a spreadsheet-backed store and look at totals and recent
history. The core lives in `bot/bot.js` and has four parts:

- **Authorization gate** (module `Auth`). A sender may use a command when its numeric
  id, written in decimal (`String(msg.from.id)`), is one of the comma-separated entries
  of the configured allow list. The entries are not trimmed.
- **Per-user dialogue** (modules `Dialogue` and `TransactionBot`). `userSessions` maps
  a user id to a session `{type, step, amount?, note?}`.
  - `/invest` and `/return` start a session in step `amount`, replacing any earlier one.
  - Free text moves the session from `amount` to `note` to `confirm`. The amount must be
    ASCII digits once trimmed; a note of "skip", in any case, is stored empty.
  - The `confirm_no` button drops the session. The `confirm_yes` button builds one
    record (`Return Amount` empty, `Status` Pending) and drops the session, whether or
    not the store accepts the record.
  - `Dialogue` states each handler as a pure function from the map before to the map
    after, plus the reply. Class `TransactionBot.Bot` holds the map as a mutable field,
    and each of its methods is proved to change the map exactly as that function says.
- **Summary** (module `Reports`). This gives the sum of the amounts of the `Invest`
  rows, the sum of the `Return` rows, and their difference. The loop method
  `Summarize` is proved to compute the function `SummaryOf`.
- **History** (module `Reports`). This gives "No transactions found" for an empty
  store. Otherwise it gives the last ten rows, newest first. The loop method
  `RenderHistory` is proved to compute the function `HistoryOf`.

Supporting modules:
- `Text` holds JavaScript's `trim` (with the ECMAScript whitespace set), the
  `'skip'` test, the `^[0-9]+$` test, `split('T')[0]` and `split(',')`.
- `Decimal` holds decimal digit strings.
- `Flows` connects a confirmed dialogue to what `/summary` and `/history` then show.

Outside input becomes a parameter:
- the allow list;
- the two clock reads of the button handler (ISO timestamp strings);
- the store's list of rows (`None` when the fetch fails);
- whether the append succeeded.

Each handler runs atomically.

On three points the code does less than a reader of its help text or its flow might expect, and the model follows the code:
- The button handler (`callback_query`) checks neither the sender's authorization
  nor the session's step. The missing authorization check is harmless: only the
  command handlers create sessions, and they do check it, so every stored session
  belongs to an authorized user and a press by anyone else finds no session
  (`UnauthorizedPressIgnored`). The missing step check is not: a `confirm_yes` left
  over from an earlier dialogue, pressed while a new dialogue still waits for its
  amount, writes a record with no amount (`EarlyConfirmHasNoAmount`).
- The session is removed after the write, not before it.
- The `/invest <amount>` shortcut named in the help text is not implemented in this file.

## Model

| member | source | states |
|---|---|---|
| `Text.Trim` | bot/bot.js:84 | `trim()` yields a string that neither starts nor ends with ECMAScript whitespace |
| `Text.ContentStart` | bot/bot.js:84 | where `trim()` starts: only whitespace comes before it, and the character there, if any, is not whitespace |
| `Text.ContentEnd` | bot/bot.js:84 | where `trim()` ends: only whitespace comes after it, and the character before it, if any, is not whitespace |
| `Text.TrimShape` | bot/bot.js:84 | the trimmed text is the slice of the input between a leading and a trailing run of whitespace |
| `Text.TrimOfPadded` | bot/bot.js:84 | converse: any unpadded text surrounded by any whitespace trims to exactly that text |
| `Text.TrimIdempotent` | bot/bot.js:95 | trimming an already trimmed text changes nothing |
| `Text.Lower` | bot/bot.js:95 | `toLowerCase()`; a definition, characterised through `IsSkip` by `SkipSpellings` |
| `Text.IsSkip` | bot/bot.js:95 | `toLowerCase() === 'skip'`; a definition, characterised letter by letter by `SkipSpellings` |
| `Text.SkipSpellings` | bot/bot.js:95 | `toLowerCase() === 'skip'` holds exactly for the 24 spellings s/S, k/K/U+212A, i/I, p/P |
| `Text.IsDigits` | bot/bot.js:85 | `^[0-9]+$`: one or more ASCII digits; a definition, whose consequences are proved by `DigitsAreUnpadded` and `TrimKeepsSlash` |
| `Text.StartsWithSlash` | bot/bot.js:81 | `startsWith('/')`; a definition, related to `trim()` by `TrimKeepsSlash` |
| `Text.DigitsAreUnpadded` | bot/bot.js:81-85 | a string accepted by `^[0-9]+$` is unpadded, is its own trim and does not start with `/` |
| `Text.TrimKeepsSlash` | bot/bot.js:81-85 | text starts with `/` exactly when its trim does and no whitespace precedes it; so text whose trim passes `^[0-9]+$` is never a command |
| `Text.DatePart` | bot/bot.js:126 | `split('T')[0]` is the longest prefix without a 'T', and the next character, if any, is 'T' |
| `Text.Split` | bot/bot.js:22 | `split(',')` gives at least one piece, and no piece contains a comma |
| `Text.JoinSplit` | bot/bot.js:22 | joining the pieces of `split(',')` gives back the configured string |
| `Text.SplitJoin` | bot/bot.js:22 | splitting a join of comma-free entries gives back those entries |
| `Decimal.DecimalString` | bot/bot.js:32 | `String(id)` is a digit string with no leading zero unless it is "0" |
| `Decimal.ValueOfDecimalString` | bot/bot.js:32 | reading `String(id)` back as a number gives the id |
| `Decimal.DecimalStringOfValue` | bot/bot.js:32 | every canonical digit string is `String` of its value |
| `Decimal.DecimalStringInjective` | bot/bot.js:32 | distinct ids have distinct strings, so one allow-list entry admits at most one user |
| `Decimal.DecimalStringIff` | bot/bot.js:32 | `String(n) == s` exactly when `s` is canonical and has value `n` |
| `Auth.AllowList` | bot/bot.js:22 | the allow list is the comma-separated pieces of the configuration string, untrimmed |
| `Auth.IsAuthorized` | bot/bot.js:31-33 | `allowedUsers.includes(String(id))`; a definition, characterised by `AuthorizedIff` |
| `Auth.AuthorizedIff` | bot/bot.js:31-33 | a sender is authorized exactly when some entry is a canonical digit string whose value is its id (so " 42" or "042" admits no one) |
| `Auth.AllowListOfEntries` | bot/bot.js:22-33 | configuring entries joined by commas authorizes exactly the ids whose strings are among them |
| `Dialogue.NewSession` | bot/bot.js:62 | a new session has the given type, is in step `amount` and is well formed |
| `Dialogue.RecordOf` | bot/bot.js:124-133 | the appended record; a definition, whose fields are stated by the ensures of `Press` |
| `Dialogue.NoteOf` | bot/bot.js:95 | the note is "" when the trimmed text is a spelling of "skip", and the trimmed text otherwise |
| `Dialogue.Advance` | bot/bot.js:83-109 | keeps the type and the well-formedness invariant. Step `amount`: moves to `note` storing the trimmed text iff it is digits; otherwise the session is unchanged and the reply is a re-prompt. Step `note`: stores the note and moves to `confirm`. Step `confirm`: no change and no reply |
| `Dialogue.Begin` | bot/bot.js:59-72 | an authorized sender's session becomes a fresh `amount` session, overwriting any earlier one; an unauthorized sender changes nothing and gets no reply; other users are untouched; the well-formedness invariant and "every session holder is authorized" are kept |
| `Dialogue.Message` | bot/bot.js:75-110 | no change and no reply for an unauthorized sender, a sender without a session, a message without text, text starting with `/`, or step `confirm`; otherwise exactly `Advance` on the sender's session; other users untouched; the set of session holders is unchanged; the invariant is kept |
| `Dialogue.Press` | bot/bot.js:113-144 | no session or an unknown token: no change. Either token removes the session. A record is produced iff the token is `confirm_yes`, with the session's type and amount, empty Return Amount, Status Pending and the note or "", its `Date` taken from the first clock read and its `Timestamp` from the second. The write outcome picks only the reply. Other users are untouched; no session holder is added; the invariant is kept |
| `Dialogue.WriteOutcomeOnlyChangesReply` | bot/bot.js:135-141 | success and failure of the write leave the same sessions and the same record |
| `Dialogue.PaddedAmountAccepted` | bot/bot.js:84-90 | digits with any surrounding whitespace are accepted, and the digits alone are stored |
| `Dialogue.CompleteDialogue` | bot/bot.js:59-141 | start, amount, note and `confirm_yes` yield exactly the record built from the replies, and leave the user without a session and every other user untouched |
| `Dialogue.SecondPressIsNoOp` | bot/bot.js:115-116 | after either button has resolved a session, any further press does nothing |
| `Dialogue.ConfirmedRecordIsValidated` | bot/bot.js:122-133 | confirming a session in step `confirm` writes a digit-string amount and a trimmed note |
| `Dialogue.UnauthorizedPressIgnored` | bot/bot.js:113-116 | while every session holder is authorized, a press by an unauthorized user changes nothing, writes nothing and sends nothing |
| `Dialogue.EarlyConfirmHasNoAmount` | bot/bot.js:113-133 | `confirm_yes` on a session still in step `amount` writes a record with no amount and an empty note, and removes the session |
| `Reports.NumberOf` | bot/bot.js:156-157 | `Number(t.Amount)` on a digit string is its decimal value; a definition, used by `ConfirmedAmountCounted` (other strings: see Left out) |
| `Reports.TypeTotal` | bot/bot.js:155-158 | the sum of the amounts of the rows of one exact type; never negative, since `NumberOf` counts only digit strings (see Left out) |
| `Reports.TypeTotalAppend` | bot/bot.js:155-158 | the per-type total of a concatenation is the sum of the totals |
| `Reports.SummaryOf` | bot/bot.js:153-159 | a definition: the first two ensures restate the body (Invest sum, Return sum, their difference); its properties are `OtherTypesIgnored`, `SummaryOfAppend` and `SummarySwap`; no rows give zeros |
| `Reports.Summarize` | bot/bot.js:153-159 | the `forEach` accumulation computes `SummaryOf` |
| `Reports.OtherTypesIgnored` | bot/bot.js:156-157 | a row of any other type, anywhere in the list, changes no total |
| `Reports.SummaryOfAppend` | bot/bot.js:155-158 | one more row adds its amount to its own type's total only |
| `Reports.SummarySwap` | bot/bot.js:155-158 | swapping two neighbouring rows changes no total |
| `Reports.SummaryExample` | bot/bot.js:153-159 | Invest 300, Return 100, Invest 200 give 500, 100 and 400 |
| `Reports.LastN` | bot/bot.js:179 | `slice(-10)` keeps the last min(10, n) rows |
| `Reports.Reverse` | bot/bot.js:179 | `reverse()` keeps the length and puts element `n-1-k` at `k` |
| `Reports.LineOf` | bot/bot.js:180 | one history line: a row's Date, Type, Amount and Status; a definition, used by `HistoryOf` |
| `Reports.HistoryOf` | bot/bot.js:174-181 | "no transactions" iff there are no rows; otherwise min(10, n) lines, line `k` showing row `n-1-k` |
| `Reports.RenderHistory` | bot/bot.js:178-181 | the `+=` loop over the reversed slice computes `HistoryOf` |
| `Reports.HistoryKeepsLastRows` | bot/bot.js:179 | with more than ten rows, only the last ten affect the history |
| `Reports.NewestRowFirst` | bot/bot.js:179 | the most recently appended row is the first history line |
| `Flows.ConfirmedAmountCounted` | bot/bot.js:122-158 | a confirmed Invest adds its amount to the invested total and the net; a confirmed Return adds it to the returned total and subtracts it from the net |
| `Flows.ConfirmedRecordHeadsHistory` | bot/bot.js:124-181 | the appended record is the first history line, with the date of the clock read for `Date`, its type, its amount and Pending |
| `TransactionBot.Bot.constructor` | bot/bot.js:22-25 | the bot starts with the allow list `split(',')` of the configured string (`AllowList`) and no sessions |
| `TransactionBot.Bot.ResetSession` | bot/bot.js:27-29 | `delete` removes exactly the user's entry and keeps the invariant |
| `TransactionBot.Bot.StartDialogue` | bot/bot.js:59-72 | the map and the reply are as `Begin` says |
| `TransactionBot.Bot.HandleMessage` | bot/bot.js:75-110 | the in-place field updates leave the map and the reply as `Message` says |
| `TransactionBot.Bot.HandleButton` | bot/bot.js:113-144 | the returned record, the reply and the map after `resetSession` are as `Press` says; a press by an unauthorized user changes nothing, since `Valid` keeps every session holder authorized |
| `TransactionBot.Bot.Summary` | bot/bot.js:146-165 | no reply when unauthorized, a failure notice when the fetch failed, otherwise the two totals and their difference |
| `TransactionBot.Bot.History` | bot/bot.js:167-187 | no reply when unauthorized, a failure notice when the fetch failed, otherwise the history view |

## Left out

- Telegram transport and command routing (bot/bot.js:2, 21, 48-56) are not modelled.
  Commands are already-parsed events and replies are abstract values. This covers the
  `onText` patterns (for instance, `/\/invest$/` matches any text that ends in
  "/invest"), the two handlers that one command message triggers at once, the fixed
  `/start` and `/help` texts, chat targets and keyboard markup. It also covers a button
  press whose `query.message` is missing, where the handler throws before clearing the
  session.
- Reading the environment and the start-up `throw`s are not modelled (bot/bot.js:1, 7-19). The allow list is a parameter.
- The HTTP calls through axios are not modelled (bot/bot.js:136, 150, 171). The fetched
  list is a parameter, and so is the outcome of the append. How the store lists a record
  whose `Amount` key was undefined is not modelled.
- The unused `node-cron` import and the `console` logging are not modelled.
- `new Date()` is not modelled (bot/bot.js:126-127). Its two reads are two ISO timestamp
  parameters, one for `Date` and one for `Timestamp`. They need not fall on the same day.
- Reports.NumberOf: `Number(t.Amount)` is modelled only on digit strings, which is
  what the dialogue writes. Every other string counts as 0, whereas JavaScript can give
  a float, a negative number, a value for padded or hexadecimal text, or NaN. The totals
  are unbounded integers, not doubles.
- Text.LowerChar: only the characters that lower-case to a letter of "skip" are mapped
  (ASCII capitals and U+212A). The full Unicode `toLowerCase` is not needed for the one
  comparison it is used in.
- Dialogue.Message: a message without text (a sticker or a photo) from an authorized
  user who has a session throws at `msg.text.startsWith` (bot/bot.js:81). The model
  treats it as no change and no reply. The rejected promise of the `async` handler is
  never handled, and what that does to the process is not modelled. On Node runtimes
  that end the process on an unhandled rejection, every user's session is lost.
- Interleaving at the `await` of the append (bot/bot.js:136) is not modelled: every handler is atomic. This rules out the double-confirm race.
- The `/invest <amount>` shortcut is only named in the help text (bot/bot.js:43-44) and is not part of this file.
- Message wording, emoji, Markdown and the currency sign are not modelled.
