# hearingBot core, modelled in Dafny

hearingBot keeps a SQLite table of the U.S. Congress hearings and committee
meetings that the congress.gov API lists. It reports new and changed ones.
This project models the core of that program and proves properties of it:

- **Detail extractors and date parser** (`extract.dfy`, module `Extract`).
  `get_date`, `get_title`, `get_committee` and `get_URL` are modelled over
  a detail record whose scalar members can be missing, `null` or a string.
  `parse_date` tries the layout `%Y-%m-%dT%H:%M:%SZ` first, then `%Y-%m-%d`.
  `date.isoformat()` is modelled too.
- **The sync loop of `main`** (`hearing_bot.dfy`, module `HearingBot`).
  It covers the three `normalize_*` functions and the event-id derivation.
  The loop is modelled twice: as a specification fold (`Sync`) and as a
  method with the loop's own state (`SyncListing`). That state is the
  seen-set, the staged rows and the fetched ids. The batch insert is
  modelled as an all-or-nothing map update (`InsertAll`).
- **The refresh passes of `backfill.py`** (`backfill.dfy`, module
  `Backfill`). `check_status` and `backfill_missing_urls` are methods of a
  class `HearingTable`, which holds the `hearings` table as a map from id to
  row. Each method is proved against a function that gives the whole table
  afterwards.
- **`format_hearings_grouped`** (`post.dfy`, module `Post`). Two loops build
  `by_date` and `output`. The method returns the text instead of printing
  it, and it is proved equal to a specification function `Grouped`.

Supporting modules: `wrappers.dfy` holds `Option` and `Result`. `seqs.dfy`
holds distinctness and element sets of sequences. `text.dfy` holds Python's
`<` on `str`, the slice `s[:n]`, `str.rstrip()` and `"\n".join`.

Inputs the program reads from outside are parameters of the model:
- the fetched detail, as a function from URL to an optional detail, where
  `None` is the `{}` that `fetch_event_detail` returns on any failure;
- `get_status`, as a function from detail to an optional status, where
  `None` means it raised;
- today's date, as a string;
- `datetime.now()`, as a function from loop index to string.

Behaviour of the code that the model keeps as written:
- The id is `eventId` or, failing that, the integer `jacketNumber`,
  uncoerced (hearing_bot.py:192). `Ident` keeps text and numeric ids apart.
  The `id` column holds strings, so an integer id is stored, and read back
  by the next run, as its decimal text (`StoredKey`).
- No list of ids to ignore exists in the code. Every listed id is handled.
- A detail with `"dates": [{"meetingDate": null}]` makes `normalize_date`
  return None. `None < today` then raises a `TypeError` that nothing
  catches, so the run stops before its insert. A listing entry without a
  `url` key stops the run the same way, with a `KeyError` at
  hearing_bot.py:200. The model's `Aborted` outcome captures both.
- A date such as `"N/A"` is compared as a string (hearing_bot.py:205). It
  is staged like any other date.
- In `check_status` the new status is committed before the date is parsed
  (backfill.py:81-86). A refreshed date that fails to parse leaves the new
  status written.

## Model

| member | source | states |
|---|---|---|
| Extract.GetDate | extract.py:5-9 | a truthy top-level `date` wins; otherwise the first `dates` entry's `date` (None when absent or null); with no `dates`, None |
| Extract.GetTitle | extract.py:11-12 | a missing title gives `""`, a string title itself, and the result is None exactly when the title is null |
| Extract.GetCommittee | extract.py:14-18 | a non-empty `committeeName` wins; otherwise the first `committees` entry's `name` (`""` when absent); with no committees, `""` |
| Extract.GetUrl | extract.py:20-31 | a non-empty `meetingDocuments` decides alone (its first `url`, `""` if none); otherwise at least two `formats` give `formats[1].url`; exactly one format is an IndexError; neither array gives None |
| Extract.StrptimeTimestamp | extract.py:34-36 | a successful parse of the first layout is a valid datetime and the input has 20 characters |
| Extract.StrptimeBare | extract.py:34-36 | a successful parse of the second layout is a valid date at midnight and the input has 10 characters |
| Extract.ParseDate | extract.py:33-39 | a success is a valid datetime from a 20-character string in the timestamp layout or a 10-character string in the date layout, at midnight; a failure is `Unrecognized` carrying the input itself |
| Extract.ParsedDatePrefix | extract.py:33-39 | whichever layout matched, the input's first ten characters are the `isoformat()` of the parsed date, and a timestamp's hour, minute and second digits are the parsed time |
| Extract.IsoDate | backfill.py:87 | `date.isoformat()` always yields the `YYYY-MM-DD` layout |
| Extract.Timestamp | extract.py:34 | writing a datetime in the first layout yields that layout |
| Extract.ParseIsoDate | extract.py:33-36 | `parse_date(t.isoformat())` returns the date of `t` at midnight |
| Extract.ParseTimestamp | extract.py:33-36 | a timestamp written in the first layout parses back to exactly that datetime |
| Extract.TimestampAndBareDateAgree | extract.py:33-36 | a timestamp and the bare date of the same day both parse and name the same calendar date |
| Extract.CanonicalDateRoundTrip | backfill.py:86-90 | a 10-character string that parses equals the `isoformat()` of its parse, so the date check compares canonical forms |
| Extract.ParseDateExamples | extract.py:33-36 | `"2025-06-18T00:00:00Z"` and `"2025-06-18"` both parse to 18 June 2025 at midnight |
| Extract.ParseDateRejects | extract.py:37-39 | `"not-a-date"` fails with an error naming `"not-a-date"` |
| Text.Less | hearing_bot.py:205 | Python's `<` on `str`; a proper prefix comes before the longer string |
| Text.LessTake | hearing_bot.py:205-206 | against a string of at most `n` characters, `s[:n] < b` exactly when `s < b` |
| Text.Join | post.py:110 | `sep.join(parts)` starts with the first part and ends with the last |
| Text.Take | hearing_bot.py:206 | `s[:n]` has at most `n` characters, is a prefix of `s`, and is `s` itself when `s` is short enough |
| Text.RStrip | post.py:110 | `rstrip()` keeps a prefix that does not end in whitespace, and everything cut off is whitespace |
| Text.LessIrreflexive | hearing_bot.py:205 | no string is below itself under Python's `<` |
| Text.LessAsymmetric | hearing_bot.py:205 | if `a < b` then not `b < a` |
| Text.LessTransitive | post.py:102 | `<` on strings is transitive |
| Text.LessTotal | post.py:102 | any two different strings are ordered one way or the other |
| HearingBot.NormalizeDate | hearing_bot.py:115-123 | a truthy `date` wins; otherwise the first `dates` entry's `meetingDate` (`"N/A"` when absent); otherwise `"N/A"`; the result is None exactly when that `meetingDate` is null |
| HearingBot.NormalizeTitle | hearing_bot.py:125-127 | the key looked up is `"title"` with no default, so a missing or null title gives None, and a string title gives itself |
| HearingBot.NormalizeCommittee | hearing_bot.py:129-137 | a non-empty `committeeName` wins; otherwise the first `committees` entry's `name` (`"N/A"` when absent); otherwise `"N/A"` |
| HearingBot.DeriveId | hearing_bot.py:192 | a non-empty `eventId` is the id; otherwise the integer `jacketNumber`, uncoerced; otherwise None |
| HearingBot.FetchDetail | hearing_bot.py:89-110 | a `url` whose fetch succeeds gives that detail; any failure, a null `url` included, gives `{}` |
| HearingBot.StageRow | hearing_bot.py:204-212 | the staged row keeps id and insert time; its date is the first ten characters; a date below today has None title and committee, any other has the normalized ones |
| HearingBot.Step | hearing_bot.py:191-212 | a seen id changes nothing and fetches nothing; a new id is added to the seen-set; an entry without `url` stops the run before any fetch; otherwise the id is fetched, a None date stops the run, and any other date stages exactly one row |
| HearingBot.Sync | hearing_bot.py:191-212 | the loop over the whole listing stops at its first uncaught error; it stages at most one row per fetch and fetches at most once per entry, and a finished run staged one row per fetch |
| HearingBot.SyncListing | hearing_bot.py:172-212 | the loop yields the specified run; no id is fetched twice or fetched when the store holds it; a finished run fetched exactly the staged ids, one per distinct new listing id |
| HearingBot.AbortIsFinal | hearing_bot.py:201-205 | once the uncaught `TypeError` has stopped the loop, later entries change nothing |
| HearingBot.StepKeepsConsistent | hearing_bot.py:195-212 | one step keeps the run's invariant: the seen-set holds the store and the fetched ids (exactly those in a finished run), fetched without repeats, disjoint from the store, drawn from the listing |
| HearingBot.SyncFacts | hearing_bot.py:176-212 | every run, finished or stopped, keeps that invariant over the whole listing |
| HearingBot.StagedCount | hearing_bot.py:177-212 | a finished run stages as many rows as there are distinct listing ids the store lacks |
| HearingBot.FetchedAtMostOnce | hearing_bot.py:186-200 | over hearings followed by meetings, each id is fetched at most once; a new id in a finished run is fetched and staged exactly once |
| HearingBot.RerunStagesNothing | hearing_bot.py:175-197 | when the store holds every listing id, a run fetches nothing and stages nothing |
| HearingBot.InsertAll | hearing_bot.py:214-219 | an insert that goes through leaves the table with exactly its old keys and the rows' stored keys, and changes no row already there |
| HearingBot.StoredKey | hearing_bot.py:176-177 | the `id` column never holds an integer: an integer id is stored as text, different from the id itself; text and None are stored unchanged |
| HearingBot.Decimal | hearing_bot.py:214-219 | `str(n)` is a non-empty run of decimal digits |
| HearingBot.DecimalValue | hearing_bot.py:214-219 | reading `str(n)` back as digits gives `n` |
| HearingBot.InsertFresh | hearing_bot.py:214-219 | rows with distinct new stored keys all insert, each under its own key |
| HearingBot.InsertClash | hearing_bot.py:214-219 | one row whose key the table already holds makes the whole batch fail |
| HearingBot.NewIdStaged | hearing_bot.py:191-212 | a finished run stages a row for every listing id the store lacks |
| HearingBot.NumericIdRestaged | hearing_bot.py:176-219 | an id known only as an integer `jacketNumber` is stored as text, so the next run over the same listing, if it finishes, stages it again and its whole insert fails on the primary key |
| HearingBot.RunThenRerunStagesNothing | hearing_bot.py:172-219 | for a listing whose ids are all text, a finished run's rows insert, and a second run over the same listing stages nothing, whatever today, the clock and the details are |
| HearingBot.AsWritten | hearing_bot.py:204-212 | a row dated below today is written as the staged tuple; any other is written as a set holding its id, date and insert time |
| HearingBot.AsWrittenBranch | hearing_bot.py:205-212 | against today's ten-character date, branching on the stored ten characters picks the same case as the loop's branch on the whole date, with the same values |
| HearingBot.AllAsWritten | hearing_bot.py:183-212 | `new_hearings` as written: one entry per staged row, in order |
| HearingBot.SetEntryFails | hearing_bot.py:214-219 | a single set among the parameter rows makes `executemany` fail and roll back every row |
| HearingBot.AsWrittenInsertFails | hearing_bot.py:212-219 | as written, a batch that stages any meeting on or after today inserts nothing |
| HearingBot.TuplesInsertAll | hearing_bot.py:206-219 | with every row written as a tuple, `executemany` is the all-or-nothing insert of the staged rows |
| HearingBot.UpcomingMeetingInsertsNothing | hearing_bot.py:204-219 | a meeting on 1 July staged on 18 June goes into an empty table as a tuple, but as written it is a set and the insert fails |
| Backfill.Upcoming | backfill.py:10-15 | a row is upcoming exactly when its stored date is a 10-character date that parses and does not compare below today |
| Backfill.MissingUrl | backfill.py:13 | a URL is missing exactly when it is NULL or empty |
| Backfill.RefreshedDate | backfill.py:85-87 | a refreshed date exists exactly when `get_date` gives a string that parses; it is that string's first ten characters, a date that parses |
| Backfill.RefreshRow | backfill.py:62-102 | only `status` and `date` change; an empty detail or an unchanged or failing status changes nothing; a changed status is written, and the date is replaced by the refreshed date when one exists |
| Backfill.RefreshedTable | backfill.py:49-109 | the same ids; non-upcoming rows untouched; title, committee, url, API_call and date_inserted never change |
| Backfill.UrlOutcomeOf | backfill.py:25-41 | a row reaches the UPDATE exactly when `get_URL` gives a truthy URL; it is filled only when the statement is accepted, with a non-empty URL |
| Backfill.UrlPass | backfill.py:10-41 | the same ids, and no column other than `url` changes |
| Backfill.AsWrittenUpdateNeverFills | backfill.py:33-37 | with the statement as written, the pass leaves the whole table unchanged |
| Backfill.UpcomingExample | backfill.py:14 | `"2099-01-01"` counts as upcoming on `"2025-06-18"` |
| Backfill.AsWrittenLeavesUrlMissing | backfill.py:25-41 | an upcoming row without a URL whose detail has one gets its UPDATE rejected and still has no URL |
| Backfill.CorrectedUpdateFillsUrls | backfill.py:25-39 | without the comma, each upcoming row missing a URL whose detail yields a truthy one gets exactly that URL; every other row is unchanged |
| Backfill.HearingTable.constructor | backfill.py:8-9 | the table starts with the given rows |
| Backfill.HearingTable.SetStatus | backfill.py:76-80 | only the status of row `id` changes |
| Backfill.HearingTable.SetDate | backfill.py:92-96 | only the date of row `id` changes |
| Backfill.HearingTable.ExecuteUrlUpdate | backfill.py:33-37 | the statement succeeds exactly when it is well formed, and only then is row `id`'s URL set |
| Backfill.HearingTable.CheckRow | backfill.py:62-102 | row `id` becomes its refreshed row; a notice is returned exactly when the status changed, carrying the old and new status |
| Backfill.HearingTable.CheckStatus | backfill.py:45-109 | the table becomes the refreshed table; one notice per changed row and no other, each naming the row's title and date before the pass, the old status and the status now stored |
| Backfill.HearingTable.BackfillRow | backfill.py:25-41 | the row's outcome is returned, and only a filled outcome changes the table, setting that row's URL |
| Backfill.HearingTable.BackfillMissingUrls | backfill.py:7-43 | the table becomes the specified pass; every upcoming row missing a URL gets exactly one log entry, and no other row gets one |
| Post.Items | post.py:97-99 | one `(committee, title, url, status)` item per row, in order |
| Post.Bullet | post.py:106 | a bullet starts with `• ` and the status, and ends with the title |
| Post.Bullets | post.py:104-106 | one bullet per item, in order |
| Post.DatesInOrder | post.py:96-99 | the keys of `by_date`: every date of the input exactly once |
| Post.RowsOn | post.py:97-99 | the rows kept for a date are all on that date, and there are none exactly when the date does not occur |
| Post.Insert | post.py:102 | inserting adds exactly that date to the list |
| Post.SortDates | post.py:102 | `sorted` returns a permutation of its input |
| Post.InsertAscending | post.py:102 | inserting into an ascending list keeps it ascending |
| Post.SortDatesAscending | post.py:102 | the sorted list is ascending |
| Post.SortedHeaders | post.py:96-103 | the headers are strictly ascending, without repeats, and are exactly the input's dates |
| Post.Grouped | post.py:101-110 | the text never ends in whitespace, and no rows give the empty text |
| Post.AddRow | post.py:97-99 | one turn of the first loop keeps `by_date` and its key order equal to the rows seen so far |
| Post.GroupByDate | post.py:96-99 | the first loop leaves the keys in first-occurrence order and, under each date, that date's rows in input order |
| Post.WriteGroup | post.py:103-109 | one date appends its header, one bullet per row and one blank line |
| Post.Blocks | post.py:101-109 | the lines written for the dates `ds`: at least two per date, the first being the first date's header and the last a blank line |
| Post.WriteGroups | post.py:101-109 | the second loop writes the groups of the given dates, in order |
| Post.FormatHearingsGrouped | post.py:88-110 | the method returns exactly the specified report |
| Post.RowsOnAppend | post.py:97-99 | within a date, rows keep input order: the rows of `a + b` on a date are those of `a` followed by those of `b` |
| Post.RowsUnderCovers | post.py:97-106 | listing the rows under distinct dates that cover every row's date uses each row exactly once |
| Post.EveryRowOnce | post.py:97-106 | under the sorted headers, every input row gives exactly one bullet, and it sits under its own date |
| Post.UrlsNeverShown | post.py:106 | rows that differ only in their URLs give the same report |
| Post.ExampleKeys | post.py:96-99 | rows on days 2, 1, 2 give the keys 2, 1 |
| Post.ExampleSort | post.py:102 | sorting 2, 1 gives 1, 2 |
| Post.ExampleGroups | post.py:96-104 | for that example, day 1 comes first, and day 2 holds its two rows in input order |
| Post.ExampleBullet | post.py:106 | a row with a null committee gives `• C: None \| W`, with no URL |

## Left out

- fetch.py, bot.py and the HTTP session: the listing is an input, and the
  detail fetch is a function parameter. Retries, timeouts and API keys are
  not part of this model.
- sql.py and the `post_*` functions of post.py: they are SQL text and
  printing.
- list_all_hearings_sorted, the table creation, and the Slack client: they
  only print or set up resources.
- All console output: its wording is not modelled. `check_status` returns
  its notices and `backfill_missing_urls` returns a log instead.
- `get_status` is imported by backfill.py but is not defined in extract.py.
  It is a function parameter.
- Backfill.Upcoming: models SQLite's `date(date) >= date('now')` only for
  dates in the canonical `YYYY-MM-DD` form. Other forms SQLite's `date()`
  accepts, and its day-of-month normalisation, are not modelled.
- HearingBot.InsertAll: other SQLite conversions are not modelled. Only
  the integer id's conversion to text is.
- HearingBot.RunThenRerunStagesNothing: holds only for listings whose ids
  are all text (or None). A listing with an integer `jacketNumber` id is
  re-staged on every run and its insert fails; `NumericIdRestaged` states
  that case.
- Extract.ParseDate: only the fixed-width layouts are modelled. `strptime`
  also accepts one-digit `%m`, `%d`, `%H`, `%M` and `%S` fields, a
  space-padded `%d`, and non-ASCII decimal digits. The model rejects those
  strings.
- Extract.CanonicalDateRoundTrip: holds for the modelled layouts only. In
  Python, `"2025-06- 1"` parses to 1 June 2025, whose `isoformat()` is
  `"2025-06-01"`, not the input; a date written in non-ASCII digits fails
  the round trip too.
- Post.Grouped: the full text is not proved for a concrete input. The
  example lemmas state the groups, their order and one bullet.
- HearingBot.SyncListing: `datetime.now()` is a string, not a datetime
  object. It is stored as given.

## Findings

| source | as written | input that shows it | evidently intended | confidence | as-written member | corrected member |
|---|---|---|---|---|---|---|
| hearing_bot.py:212 | a row dated today or later is staged as a set literal; sqlite3 binds parameters only from a sequence or a mapping, so `executemany` raises and `with conn:` rolls back every row of the run | a meeting dated `2025-07-01` in a run on `2025-06-18` | a tuple `(id, date[:10], title, committee, now)`, as for past rows at line 206 | not executed | HearingBot.AsWrittenInsertFails | HearingBot.InsertFresh |
| hearing_bot.py:192 | an id taken from the integer `jacketNumber` is stored as text, and the next run compares the integer with that text, so the id is never recognised as seen | an entry with no `eventId` and `jacketNumber` 60447, listed on two runs in a row | `str(...)` around the derived id, so every id is text | not executed | HearingBot.NumericIdRestaged | HearingBot.RunThenRerunStagesNothing |
| backfill.py:33-37 | the UPDATE ends its SET list with a comma before `WHERE`, which SQLite rejects; the error is caught, so no URL is ever written | an upcoming row `"2099-01-01"` with no URL whose detail's first meeting document has a URL | `SET url = ? WHERE id = ?`, filling the URL | not executed | Backfill.AsWrittenLeavesUrlMissing | Backfill.CorrectedUpdateFillsUrls |
