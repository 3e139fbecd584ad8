# AI Study Planner — request handling, modelled in Dafny

The AI Study Planner is a Flask application with a single page, `/`. A
student submits three form fields: a syllabus, a comma-separated list of
deadlines, and the hours available per day. The application then does four
things:

1. It rejects the submission if any field is empty.
2. It rejects the deadlines unless every comma-separated token, once blanks
   are stripped, is a `YYYY-MM-DD` calendar date. The accepted dates are
   rewritten in canonical form: zero-padded and joined by `", "`.
3. It asks a chat-completion service for a study plan and converts the
   answer from Markdown to HTML. An empty answer is rejected.
4. It appends a row to an append-only history table and lists the history
   newest first.

A plain fetch of `/` only lists the history.

This project models that request-handling logic, module by module:

- `Text`: Python's `str.strip()` (the full `str.isspace` set), `str.split(",")` and `", ".join`.
- `Dates`: `datetime.strptime(tok, "%Y-%m-%d")`, using the token grammar of CPython's `_strptime`.
  - The year is four digits.
  - The month is `1[0-2]`, `0[1-9]` or `[1-9]`.
  - The day is `3[01]`, `[12]\d`, `0[1-9]`, `[1-9]` or a blank followed by `[1-9]`.
  - The whole token must match.
  - The date must then exist: year 1 to 9999, and a day that exists in that month under the Gregorian leap-year rule.
  - `date.strftime("%Y-%m-%d")` is modelled as well.
- `Deadlines`: the deadlines comprehension and its re-serialisation as one canonicalising function.
- `Generator`: the result handling of `generate_study_plan`. The completion reply and the Markdown converter are parameters.
- `HistoryStore`: the `History` table.
  - It is a class with a `seq<Entry>` field.
  - Rows are added by `Append`, which assigns SQLite's next rowid.
  - Rows are read back by `ListAll`, in timestamp-descending order.
- `Handler`: the `index` view.
  - `Decide` is the pure decision, in the order the code takes it.
  - `Effect` and `Respond` give the store change and the page.
  - `Index` is the imperative view method over a `History` object. It is proved to make exactly that change and to return exactly that page.
- `Scenarios`: the cases of `test_app.py` and the edge cases of the date grammar, as lemmas over the model.

In three places the model follows the code where a reader might expect something else:

- The three error paths of `index` (app.py:79, 90, 97) render the page
  without a history listing. Only the fetch and a successful save list
  the history.
- `generate_study_plan` catches only `KeyError` and `AttributeError`
  (app.py:65). These exceptions escape: a failed completion call, and an
  empty `choices` list (an `IndexError`). The request then ends in a
  server error and the store is unchanged. A `None` message content raises
  `AttributeError`, which is caught, so it returns `None`.
- The view's check `not study_plan` (app.py:95) treats `None` and `""` the
  same way.

## Model

| member | source | states |
|---|---|---|
| Text.Strip | app.py:61 | The result has no white space at either end. It is empty exactly when the input is all white space. An input with no white space at its ends is returned unchanged. |
| Text.StripPadded | app.py:84 | Stripping white-space padding from around a text without white space at its ends gives that text back. |
| Text.Split | app.py:84 | Splitting always gives at least one piece, and no piece contains the separator. |
| Text.SplitLength | app.py:84 | The number of pieces is one more than the number of separators in the input. |
| Text.JoinSplit | app.py:84 | Joining the pieces of a split with the separator restores the input. |
| Text.SplitNoSeparator | app.py:84 | A text without the separator splits into itself alone. |
| Text.SplitJoin | app.py:84-87 | Splitting a join of separator-free pieces gives those pieces back. |
| Text.SplitTrailingSeparator | app.py:84 | A trailing separator adds one empty last piece. |
| Text.Join | app.py:87 | A definition with no contract of its own: `glue.join(parts)`. JoinSplit and SplitJoin pin it down as the inverse of splitting. |
| Dates.DaysInMonth | app.py:84 | Every month has 28 to 31 days. February has 29 days exactly in leap years. |
| Dates.ParseDate | app.py:84 | A parsed date always exists in the calendar. Any accepted token has 8 to 10 characters, with a `-` after the four-digit year. Which date each token yields is fixed for all inputs by ParseSpelled and ParsedSpelling. |
| Dates.FormatDate | app.py:87 | The result is 10 characters long, with `-` at positions 4 and 7 and digits everywhere else. |
| Dates.MonthFieldSpelling | app.py:84 | `%m` accepts a text as month `m` exactly when it is `m` in two digits, or in one digit when `m` is below 10. |
| Dates.DayFieldSpelling | app.py:84 | `%d` accepts a text as day `d` exactly when it is `d` in two digits, or, when `d` is below 10, one digit alone or after a blank. |
| Dates.ParseSpelled | app.py:84 | A token made of a four-digit year and any accepted spelling of a month and a day (zero-padded, one-digit, or a blank-padded day) parses exactly when those fields name a calendar day, and then to that day. Fields that match the grammar but name no day, such as `2025-02-30` or year 0, are rejected. |
| Dates.ParsedSpelling | app.py:84 | Conversely, every accepted token is a four-digit year, `-`, an accepted spelling of its month, `-` and an accepted spelling of its day. |
| Dates.ParseFormat | app.py:84-87 | Parsing the formatted form of any valid date gives that date back. |
| Dates.FormatParse | app.py:84-87 | A 10-character token without blanks that parses is already in the formatted form. |
| Deadlines.Tokens | app.py:84 | There is one stripped token per comma-separated piece, in input order. |
| Deadlines.ParseAll | app.py:84 | The parse succeeds exactly when every token parses. The i-th date is then the parse of the i-th token. |
| Deadlines.ParseDeadlines | app.py:84 | The deadlines are accepted exactly when every stripped comma-separated token is a date. There is then one valid date per token. |
| Deadlines.FormatDeadlines | app.py:87 | A definition with no contract of its own: the dates in input order, zero-padded, joined by `", "`. FormattedTokens and FormatParseDeadlines pin it down: its stripped pieces are the formatted dates, and it parses back to the same dates. |
| Deadlines.Canonicalize | app.py:84-87 | A canonical string exists exactly when the deadlines parse. |
| Deadlines.FormatParseDeadlines | app.py:84-87 | Parsing the canonical form of any non-empty list of valid dates gives that same list back. |
| Deadlines.CanonicalizeIdempotent | app.py:84-87 | The canonical string parses to the same dates as the input, and canonicalising it again changes nothing. |
| Deadlines.SingleDeadline | app.py:84-87 | A single comma-free token is canonicalised exactly as `strptime` followed by `strftime` handles it alone. |
| Deadlines.TrailingCommaRejected | app.py:84-90 | A trailing comma always makes the deadlines invalid. |
| Generator.GenerateStudyPlan | app.py:60-66 | The function raises exactly when the call failed or there are no choices. It returns `None` exactly when the first choice has no text, or only white space. Otherwise the plan is the stripped HTML of the stripped text, and it has no white space at its ends. |
| HistoryStore.NextId | app.py:25 | The assigned id is at least 1 and greater than every id already stored. |
| HistoryStore.ByTimestampDesc | app.py:110-114 | The listing has as many rows as the store. ByTimestampDescSorted proves it newest first and a permutation of the stored rows. |
| HistoryStore.InsertPermutes | app.py:110-114 | Inserting a row into the listing keeps every row, adds the new one, and adds nothing else. |
| HistoryStore.InsertSorted | app.py:110-114 | Inserting a row into a newest-first listing keeps it newest first. |
| HistoryStore.ByTimestampDescSorted | app.py:110-114 | The listing is in non-increasing timestamp order and is a permutation of the stored rows. |
| HistoryStore.History.constructor | app.py:33-34 | A new table is empty and satisfies the id invariant. |
| HistoryStore.History.Append | app.py:100-107 | Exactly one row is appended, holding the given fields, the next id and the given timestamp. The earlier rows are unchanged, and ids keep increasing. |
| HistoryStore.History.ListAll | app.py:110-114 | The listing is newest first and holds exactly the stored rows, with their multiplicities. |
| Handler.Decide | app.py:69-97 | The outcome follows the order of the checks. A fetch only lists the history. An empty field gives the missing-fields banner whatever the deadlines are. Filled fields with bad deadlines give the format banner. A validated request gets the empty-plan banner exactly when the generator returns `None` or `""`. It crashes exactly when the generator raises, and is saved exactly when the plan is non-empty. A saved row keeps the submitted syllabus and time, and its deadlines are the canonical string, which parses to the submitted dates. Banners are only ever the three messages. |
| Handler.Effect | app.py:99-107 | The store grows by one row on a save and by none otherwise. The earlier rows are unchanged, the new row holds the outcome's fields, and ids keep increasing. |
| Handler.Respond | app.py:78-115 | A server error happens exactly on a crash. A plan is shown exactly on a save, and a banner exactly on a refusal. The history is shown exactly when there is no refusal, and it is then newest first and holds every stored row. |
| Handler.EffectKeepsWellFormed | app.py:77-107 | Every row `index` writes has non-empty fields, a non-empty plan and canonical deadlines, so a store of such rows stays one. |
| Handler.Index | app.py:69-115 | The view changes the store exactly as `Effect` says and returns the page `Respond` gives. Every path other than a save leaves the store unchanged. It keeps the id invariant and the row invariant. |
| Scenarios.LeapDaysAccepted | app.py:84 | `2024-02-29` and `2000-02-29` are accepted. |
| Scenarios.LeapDaysRejected | app.py:84-90 | `2025-02-29` and `1900-02-29` are rejected. |
| Scenarios.MonthEndsRejected | app.py:84-90 | `2025-02-30` and `2025-04-31` are rejected. |
| Scenarios.OutOfRangeFieldsRejected | app.py:84-90 | Month 13 and year 0 are rejected. |
| Scenarios.OneDigitFieldsCanonicalized | app.py:84-87 | One-digit fields are accepted and padded: `2025-5-1` becomes `2025-05-01`. |
| Scenarios.BlankDayCanonicalized | app.py:84-87 | A blank-padded day is accepted: `2025-05- 1` becomes `2025-05-01`. |
| Scenarios.WordRejected | test_app.py:62-72 | `invalid-date-format` does not parse as deadlines. |
| Scenarios.ThreeDeadlinesCanonical | test_app.py:28-44 | The three deadlines the tests submit are already canonical. |
| Scenarios.TwoDeadlinesCanonical | test_app.py:105-109 | The two deadlines the tests submit are already canonical. |
| Scenarios.EmptyInputRefused | test_app.py:49-59 | Empty fields give the missing-fields banner, whatever the generator does. |
| Scenarios.IncorrectDateFormatRefused | test_app.py:62-72 | A word in place of a date gives the format banner. |
| Scenarios.ValidSubmissionSaved | test_app.py:26-46 | The valid submission is saved with its syllabus, its unchanged deadlines, its time and the plan. |
| Scenarios.EmptyPlanRefused | test_app.py:96-113 | A generator returning `""` gives the empty-plan banner. |
| Scenarios.BlankReplyRefused | app.py:60-97 | A reply whose first choice has no text, or only white space, never reaches the store, whatever the Markdown converter does. |
| Scenarios.SubmitThenFetch | test_app.py:26-93 | The rows of the history test and the first test in one new store, then a fetch: the listing has both rows, newest first. The seeded row gets id 1 and the saved one id 2, with the canonical deadlines, the submitted time and the plan. This order is the model's own: the test module saves first and seeds second, so its ids are the other way round. |

## Left out

- The prompt and the chat-completion call (app.py:37-56) are not modelled. Their result is a `Reply` parameter: a failure, or a list of choices. The wall-clock time in the prompt does not enter the model.
- The Markdown-to-HTML converter (app.py:64) is not modelled. It is a function parameter about which nothing is assumed.
- Flask is not modelled: routing, `request.form`, `flash` and `render_template`. A missing form key, which gives an HTTP 400 from `request.form[...]`, does not occur in the model, because a `Post` always has all three fields. The page is the triple of values given to the template.
- SQLAlchemy and SQLite sessions and `create_all` are replaced by an in-memory sequence. Failures of the database and of the commit are not modelled.
- Timestamps are not modelled as time. The `datetime.utcnow` default is an integer parameter `now`, and the seeded timestamps of the tests are parameters as well.
- The order SQL may give rows with equal timestamps is not modelled: SQL leaves it unspecified, while `ListAll` and `Index` fix ties to insertion order, one of the orders SQL allows. `NewestFirst` and the multiset equality are the parts of their contracts that hold for every order SQL may choose.
- The coercion of `available_time` from form text to the integer column is not modelled. The model stores the submitted text.
- Non-ASCII digits are not modelled. Python's `\d` in `_strptime` also matches other Unicode decimal digits; the model accepts only `0`-`9`.
- `%Y` formatting is modelled as zero-padded to four digits, as in current CPython. Some older CPython builds on Linux do not pad years below 1000.
- Running out of SQLite rowids is not modelled: ids are unbounded.
- Concurrent requests are not modelled. Each request runs alone against the store.
- Environment and configuration loading (app.py:9-21) are setup only and are not modelled.
