# MDT bot: case numbers, the shared case record, the report row and officer statistics

The MDT bot is a Discord bot. Officers file arrest logs and incident reports
with it, and it stores them in a Google spreadsheet. This project models the
part of `bot.js` that carries state and logic:

- **Case numbers.** `/mdt` builds a case number: `AL-` when the type is
  exactly `Arrest Log`, `IR-` for any other type string, then the date with
  every `/` removed, then `-`, then the in-memory counter. The counter starts
  at 1000 and is post-incremented by every `/mdt` whose deferred reply
  (bot.js:101) went through; when `deferReply` rejects, the handler stops
  before the counter is read (`CaseNumbers`, `MdtBot.Bot.Mdt`,
  `MdtBot.Bot.Handle`).
- **The shared current case.** One module-level record, `caseData`, is
  replaced wholesale by every `/mdt` whose `deferReply` resolved (last write
  wins). Before the first
  `/mdt` it is the empty object `{}` (`ReportRow.CaseData.Empty`).
- **The confirm row.** Confirm turns the current case into a 9-cell row. A
  missing or empty summary becomes a placeholder, and so does a missing image.
  The type chooses the tab the row is appended to (`ReportRow`).
- **Officer statistics.** `/officerstats` counts, in each of the two tabs, the
  rows whose third cell is the officer's name, and adds the two counts
  (`OfficerStats`).
- **The handlers.** `MdtBot.Bot.Handle` dispatches one interaction. Only
  `/mdt` changes the state. Confirm reads `caseData`; cancel and
  `/officerstats` touch neither `caseData` nor `caseNumber`.

Files: `wrappers.dfy` (Option), `case_numbers.dfy`, `report_row.dfy`,
`officer_stats.dfy`, `mdt_bot.dfy` (the `Bot` class and the sheet effect).

Inputs that the bot gets from the outside world are parameters here:

- the date string (bot.js calls `new Date().toLocaleDateString()`);
- whether `deferReply` resolved (`deferred`);
- the tables returned by the two `values.get` calls, or their failure (`Fetch`);
- whether the append succeeded (`appendSucceeds`).

The append itself is the `AppendRequest` that `Confirm` returns. The
`AppendToSheet` function models where that row lands.

What bot.js does, in plain words:

- the bot keeps one shared record for every user, and any user's button
  acts on it;
- the counter lives only in memory, is shared by both report types and never
  resets while the process runs;
- both report types are written with the same 9-column layout;
- the date part is whatever the locale's date string gives once its slashes
  are removed.

Consequences of bot.js's design that the model makes visible:

- the confirm button serialises whichever case was created last, by anyone;
- confirming twice appends the same row twice, since confirm does not clear
  `caseData`;
- confirm before any `/mdt` appends seven undefined cells and the two
  placeholders to the incident tab.

## Model

| member | source | states |
|---|---|---|
| `CaseNumbers.Prefix` | bot.js:104 | the prefix is `AL-` exactly when the type equals `Arrest Log`, and `IR-` for every other type string, misspellings included |
| `CaseNumbers.StripSlashes` | bot.js:104 | the result has no `/` and is never longer than the date |
| `CaseNumbers.StripSlashesKeepsOtherChars` | bot.js:104 | exactly the slashes are removed: every other character occurs as often as in the date |
| `CaseNumbers.StripSlashesAppend` | bot.js:104 | stripping distributes over concatenation, so the kept characters keep their original order |
| `CaseNumbers.StripSlashesKeepsSlashFree` | bot.js:104 | a date without slashes is left unchanged |
| `CaseNumbers.StripSlashesIdempotent` | bot.js:104 | stripping twice equals stripping once |
| `CaseNumbers.Decimal` | bot.js:104 | the counter's text is a non-empty run of decimal digits, with a leading `0` only for zero |
| `CaseNumbers.DecimalRoundTrip` | bot.js:104 | the decimal text reads back as the counter value |
| `CaseNumbers.CaseNumber` | bot.js:103-104 | a case number is longer than four characters and starts with the prefix its type selects |
| `CaseNumbers.LastIndexOf` | bot.js:104 | finds the last `-`, after which no `-` occurs, or reports that none exists; a proof helper for the inverse of the construction (bot.js never parses a case number) |
| `CaseNumbers.ParseCaseNumber` | bot.js:104 | the inverse of the construction at this line, used only in proofs (bot.js never parses a case number); a case number it accepts starts with `AL-` or `IR-`, as its report kind says |
| `CaseNumbers.CaseNumberRoundTrip` | bot.js:104 | parsing a built case number gives back whether it is an arrest, the stripped date and the counter value |
| `CaseNumbers.CaseNumberDeterminesParts` | bot.js:104 | equal case numbers come from the same counter value, the same arrest/incident choice and the same stripped date |
| `ReportRow.SummaryCell` | bot.js:183 | the summary cell is the placeholder exactly when the summary is missing or empty (or is the placeholder text itself), otherwise the summary |
| `ReportRow.ImageCell` | bot.js:184 | the image cell is the attachment's URL when there is one, else the placeholder |
| `ReportRow.ConfirmRow` | bot.js:175-185 | the row has 9 cells: case number, date, officer, suspect, charge, location and evidence, then summary and image cells; for the empty record the first seven are undefined |
| `ReportRow.AppendRange` | bot.js:187 | the range is `Arrest Log!A1` exactly when there is a current case of type `Arrest Log`, and `Incident Report!A1` otherwise |
| `ReportRow.PrefixMatchesRange` | bot.js:187 | for a record made by `/mdt`, `AL-` numbers go to the arrest tab and `IR-` numbers to the incident tab |
| `OfficerStats.CountByOfficer` | bot.js:148-149 | the count is at most the number of rows; it is 0 exactly when no row has the name at index 2, and equals the row count exactly when every row does (rows shorter than 3 never match) |
| `OfficerStats.CountIsMatchingRows` | bot.js:148 | the count equals the number of row positions whose third cell is the name |
| `OfficerStats.CountAppendRow` | bot.js:148 | one more row raises the count by one exactly when that row's third cell is the name |
| `OfficerStats.CountAppend` | bot.js:148-150 | the count over two tables put together is the sum of their counts |
| `OfficerStats.Rows` | bot.js:145-146 | a missing `values` is an empty table |
| `OfficerStats.OfficerStatsReply` | bot.js:140-150 | the statistics are computed exactly when both fetches succeed, and the error notice is chosen when either fails (whether the success reply then goes through is not modelled); each count is the number of matching rows of its fetched table (a missing table counting 0), bounded by that table's size; total = arrests + incidents |
| `OfficerStats.TotalCountsBothTables` | bot.js:148-150 | the total equals the count over both tables concatenated |
| `MdtBot.IssuedNeverRepeat` | bot.js:104 | sequence parts of issued case numbers strictly increase and no case number repeats |
| `MdtBot.IssueNext` | bot.js:104 | issuing the case number for the next counter value keeps every issued number carrying 1000 + its position |
| `MdtBot.Bot.constructor` | bot.js:39-40 | the process starts with the empty record, counter 1000 and nothing issued |
| `MdtBot.Bot.Mdt` | bot.js:103-106 | the case number is built from the pre-increment counter, the counter goes up by exactly 1, `caseData` is exactly the new record, and the k-th case (from 0) carries sequence 1000+k |
| `MdtBot.Bot.Confirm` | bot.js:174-203 | the request carries the current case's row and the range its type selects, the outcome reports whether the authorisation and the append succeeded, and no state changes |
| `MdtBot.Bot.Cancel` | bot.js:206-208 | the current case and the counter are unchanged |
| `MdtBot.Bot.Handle` | bot.js:86-208 | only an `/mdt` whose `deferReply` resolved changes the case or the counter; a rejected defer and every other interaction give their effect and leave the state as it was |
| `MdtBot.StoredRow` | bot.js:195 | the stored row has one text per cell, an undefined cell becoming an empty one |
| `MdtBot.AppendToSheet` | bot.js:191-197 | the appended row goes to the end of the arrest tab or the incident tab, as the range names |
| `MdtBot.StatsOf` | bot.js:145-150 | the statistics of a sheet are the per-tab counts and their sum |
| `MdtBot.StoredRowNamesOfficer` | bot.js:178 | the stored confirm row matches a name in the statistics exactly when the name is the case's officer |
| `MdtBot.ConfirmedCaseCountsForItsOfficer` | bot.js:175-187 | in the sheet model (row 1 of each tab a header, no other writer), once confirmed, a case adds one to its own officer's total (as an arrest exactly when its type is `Arrest Log`) and leaves every other officer's counts unchanged |

## Left out

- The Express keep-alive server (bot.js:1-7): HTTP I/O.
- The Discord client, the slash-command registration loop and the login
  (bot.js:29-37, 43-82, 211): platform set-up and network calls.
- Embeds, buttons and the `reply`/`editReply`/`update` messages
  (bot.js:108-129, 152-164, 199-207): presentation only. The effects
  returned by `Handle` record what the sheet calls gave; the line below says
  where the reply actually sent can differ.
- Google authorisation and the `values.get`/`values.append` calls
  (bot.js:24-27, 135-143, 189-197): foreign network calls. The fetched tables
  and the append's success are inputs. `AppendToSheet` assumes that row 1 of
  each tab is a header, so appended rows land in the `A2:I` range that
  `/officerstats` reads (bot.js:136-137); that no other writer touches the
  tabs; and that the tab returns the appended cells unchanged when read back.
  In an empty tab the first appended row would land in row 1 and not be
  counted.
- OfficerStats.OfficerStatsReply, MdtBot.Bot.Confirm: the outcome follows
  only the sheet calls. In bot.js the success `reply` (bot.js:161) and the
  success `update` (bot.js:199) sit inside the same `try` as those calls, so
  when that message itself throws (an expired interaction token, an embed
  title Discord rejects) the `catch` sends the error notice instead (or
  nothing, if that throws too), although the counts were computed or the row
  was appended. A user who then presses confirm again appends the row a
  second time. The model gives `StatsShown` and `Logged` for those inputs.
- `auth.getClient()` in `/officerstats` (bot.js:135) sits outside the
  `try`, so its failure ends the handler with an unhandled rejection and no
  reply. The model covers only the two fetches that the `try` guards.
- `new Date().toLocaleDateString()` (bot.js:103): locale- and clock-dependent;
  the date string is a parameter.
- `Promise.all` concurrency (bot.js:140-143) and interleaving at `await`
  points, such as the `deferReply` before the counter is read (bot.js:101). The
  state update itself (bot.js:103-106) runs without a suspension point and is
  modelled as one atomic step.
- MdtBot.Bot.Mdt: the counter is an unbounded `nat`. bot.js's
  JavaScript number stops counting exactly after 2^53, which no process
  reaches.
- Option values that Discord marks as required are modelled as plain strings;
  Discord's own validation of them is not modelled.
