# Expense tracker: a verified model of the expense table and its views

This project models the core of a small personal expense tracker in Dafny. The tracker is a Django
app with two tables:

- `Expense`: a dated amount with a category and an optional description;
- `ViewPassword`: a shared family viewing password.

The model covers:

- the calendar arithmetic behind a month's date range (`_get_month_range`);
- how the dashboard resolves its date range from the query: the requested or current month, or an
  explicit `filter_start`/`filter_end` pair;
- the read queries over the expense table: the inclusive range filter, the total (0 over no rows),
  the per-day breakdown and the three listing orders (dashboard, monthly view, JSON API);
- the staff-only changes to the table: add (dashboard POST), edit and delete;
- the record shapes, their field constraints and their `__str__` renderings.

Modules, one per concern:

- `Wrappers`: `Option`.
- `Digits`: zero-padded and shortest decimal numerals, with round-trip lemmas.
- `Dates`: `Date`, the Gregorian leap rule, days in a month, `MonthRange`, `NextDay`, and the
  `%Y-%m-%d` format with its parser.
- `Ordering`: `ORDER BY` as a sort on lexicographic integer keys. The sort returns a sorted
  permutation, and with distinct keys that permutation is unique.
- `Models`: the `Expense` and `ViewPassword` records (expenses/models.py).
- `Queries`: filter, total, daily breakdown and the listing keys (expenses/views.py, the ORM
  queries).
- `Views`: `ResolveRange` and the `ExpenseStore` class, whose methods are the handlers
  (expenses/views.py).

Modelling choices:

- Amounts are whole cents. A `DecimalField(max_digits=10, decimal_places=2)` holds exactly the
  integers with |cents| < 10^10. The sign is not constrained.
- Dates compare field by field, as Python's `date` does. Valid years are 1 to 9999.
- The database is a sequence of rows with unique integer keys. The next key comes from a counter,
  so keys are never reused.
- "Today", the staff flag and the creation timestamp are parameters.
- `ValidFields` stands for form validation. It checks the four form fields against the field
  definitions in expenses/models.py. It also rejects the NUL character in the category and the
  description, which the framework's text form fields refuse.

Three behaviours of the code worth noting:

- An unparsable date filter does not always fall back to the month. When `filter_start` parses and
  `filter_end` does not, the parsed start is kept and only the end reverts to the month's last day
  (expenses/views.py:45-46).
- The daily breakdown is ordered ascending by date (expenses/views.py:59). Only the expense list is
  descending.
- A year or month outside the calendar raises `ValueError` in `_get_month_range`. In the dashboard
  this happens after the POST branch (expenses/views.py:30-39). So a valid staff POST still adds
  its row. Otherwise the result is the `MonthOutOfRange` page, not a precondition.

## Model

| member | source | states |
|---|---|---|
| `Dates.DaysInMonth` | expenses/views.py:17 | a month has 28 to 31 days, and February has 29 exactly in Gregorian leap years |
| `Dates.YearLength` | expenses/views.py:17 | the twelve month lengths add up to 366 in a leap year and 365 otherwise |
| `Dates.MonthRange` | expenses/views.py:15-18 | the range runs from day 1 to a valid last day, with start ≤ end; the day after the last is not a date; a valid date lies in the range exactly when it has that year and month |
| `Dates.MonthRangesAreAdjacent` | expenses/views.py:15-18 | the day after a month's last day is the first day of the next month, across year ends too |
| `Dates.NextDay` | expenses/views.py:15-18 | the next day is later, is a valid date while the year is in range, and no valid date lies strictly between the two |
| `Dates.DateOrderIsStrictTotal` | expenses/views.py:50 | date order is irreflexive, total, transitive and asymmetric |
| `Dates.FormatIsoDate` | expenses/models.py:11 | `%Y-%m-%d` renders ten characters with dashes at positions 4 and 7 |
| `Dates.ParseIsoDate` | expenses/views.py:45-46 | the parser only yields valid dates |
| `Dates.ParseFormatRoundTrip` | expenses/views.py:45-46 | every valid date is parsed back from its own rendering |
| `Dates.FormatParseRoundTrip` | expenses/views.py:45-46 | every accepted text is the rendering of the date parsed from it |
| `Ordering.SortBy` | expenses/views.py:50 | the ordered result is a permutation of the rows |
| `Ordering.SortBySorted` | expenses/views.py:50 | the ordered result is sorted by its key |
| `Ordering.SortedPermutationUnique` | expenses/views.py:50 | when keys are distinct, any two sorted permutations of the same rows are equal, so the order is fixed |
| `Models.ValidFieldsMeaning` | expenses/models.py:5-8 | form validation accepts exactly a calendar date, an amount with at most eight integer digits, a category of 1 to 100 characters, and no NUL character in the category or the description; the description may otherwise be anything, blank included |
| `Models.AmountFitsDigits` | expenses/models.py:6 | an amount fits its field exactly when its integer part has at most 10 − 2 = 8 digits |
| `Models.FormatAmount` | expenses/models.py:11 | the rendered amount is an optional minus sign, present exactly when the amount is negative, then a non-empty integer part of digits with no leading zero, a point and two digits |
| `Models.AmountRoundTrip` | expenses/models.py:11 | the rendered amount reads back as the same number of cents |
| `Models.ExpenseStrAsWritten` | expenses/models.py:10-11 | the rendering holds the three characters of the literal as written after the date and " - ", and is otherwise the corrected rendering character for character: date, " - ", literal, amount, " - ", category |
| `Models.ExpenseStr` | expenses/models.py:10-11 | the rendering has " - " and then the rupee sign right after the ten-character date |
| `Models.ExpenseStrAsWrittenLacksRupeeSign` | expenses/models.py:11 | the as-written rendering never has the rupee sign where the symbol belongs, so it differs from the intended one for every expense |
| `Models.ExpenseStrAsWrittenExample` | expenses/models.py:11 | 12.50 for "Food" on 2024-01-05 renders as written with "â‚¹" |
| `Models.ExpenseStrExample` | expenses/models.py:11 | the same expense renders with "₹" in the corrected form |
| `Models.ExpenseStrFields` | expenses/models.py:11 | the rendering is date, " - ", rupee sign, amount, " - ", category; the date and the amount read back from it, and it ends with the category |
| `Models.CreateViewPassword` | expenses/models.py:14-18 | an insert is rejected exactly when the password is already stored. Otherwise the table gains one row at the end, which is active, carries the given values and the creation time, and keeps passwords unique; on a table within the 100-character limits, the new table stays within them exactly when the new password and label do |
| `Models.PasswordLookupIsUnique` | expenses/models.py:15 | under the unique constraint, a password string matches at most one row |
| `Models.ListViewPasswords` | expenses/models.py:23-24 | the default listing is a permutation of the table, newest `created_at` first |
| `Models.ViewPasswordStr` | expenses/models.py:20-21 | the rendering is the label, " - " and the password, in that order and nothing else |
| `Queries.Filter` | expenses/views.py:50 | a row is selected, with its multiplicity, exactly when start ≤ date ≤ end, inclusive at both ends |
| `Queries.TotalOfFilter` | expenses/views.py:52 | the range total is the table sum with every out-of-range row counted as 0; an inverted range totals 0 |
| `Queries.TotalOfPermutation` | expenses/views.py:52 | the sum does not depend on the order of the rows |
| `Queries.SplitRangeTotal` | expenses/views.py:50-52 | cutting an inclusive range after a day splits its total into the totals of the two parts; the boundary day is counted once |
| `Queries.Breakdown` | expenses/views.py:55-61 | the breakdown's dates are exactly the rows' dates, and its totals add up to the total |
| `Queries.BreakdownTotalAt` | expenses/views.py:58 | the breakdown's total for a date is the sum of that date's rows |
| `Queries.DailyBreakdownCorrect` | expenses/views.py:52-61 | the daily breakdown of a range has strictly ascending dates, one entry for each date of an in-range row and no other, each entry the sum of its date's in-range rows, and all entries summing to the range total |
| `Queries.AscendingKeyMeaning` | expenses/views.py:82 | the `("date", "id")` key orders by date, then by id |
| `Queries.DescendingKeyMeaning` | expenses/views.py:50 | the `("-date", "-id")` key orders by later date first, then by larger id first |
| `Queries.SortedAscendingMeaning` | expenses/views.py:82 | a list sorted by that key has non-decreasing dates, and ids non-decreasing within a date |
| `Queries.SortedDescendingMeaning` | expenses/views.py:50 | a list sorted by that key has non-increasing dates, and ids non-increasing within a date |
| `Views.Find` | expenses/views.py:133 | the lookup finds a row exactly when some row has that key, and what it finds is that row |
| `Views.AddRow` | expenses/views.py:31-33 | saving the add form keeps every existing row and appends one row that has the next key and the submitted fields |
| `Views.UpdateRow` | expenses/views.py:136-138 | saving the edit form keeps every key and the row count; the keyed row gets exactly the submitted fields; every other row is unchanged |
| `Views.RemoveRow` | expenses/views.py:160 | deleting removes every row with that key and keeps every other row with its multiplicity |
| `Views.RemoveRowRemovesOne` | expenses/views.py:157-160 | deleting a present key from a table with unique keys removes exactly one row, and afterwards no row has that key |
| `Views.RemoveMissingRow` | expenses/views.py:157 | deleting an absent key leaves the table unchanged |
| `Views.UpdateRowWellFormed` | expenses/views.py:136-138 | an edit that passed validation keeps keys unique and every row within its field constraints |
| `Views.RemoveRowWellFormed` | expenses/views.py:160 | a deletion keeps keys unique and every row within its field constraints |
| `Views.ResolveRange` | expenses/views.py:39-48 | without both filters, the range is the month. With both, a parsed start replaces the first day and then a parsed end replaces the last day; the first parse failure stops the replacement and records a date error. Both ends are valid dates |
| `Views.DashboardListingCorrect` | expenses/views.py:50-64 | the dashboard list holds the in-range rows, each once. Dates are non-increasing and keys strictly decrease within a date. Its total is the range total |
| `Views.DashboardListingUnique` | expenses/views.py:50 | with unique keys, any ordering of the in-range rows by (date descending, id descending) is the dashboard listing, so the listing is fully determined |
| `Views.ConsecutiveMonthTotals` | expenses/views.py:81-83 | a filter spanning two consecutive months, December into January included, totals the two monthly totals added together; the boundary between them loses and repeats no day |
| `Views.MonthlyListingCorrect` | expenses/views.py:82-83 | the monthly list holds the in-range rows, each once. Dates are non-decreasing and keys strictly increase within a date. Its total is the range total |
| `Views.MonthlyListingUnique` | expenses/views.py:82 | with unique keys, any ordering of the in-range rows by (date, id) is the monthly listing, so the listing is fully determined |
| `Views.ExpenseStore.Dashboard` | expenses/views.py:21-77 | a staff POST with a valid form appends one row under the next key and redirects. Any other request leaves the table unchanged and renders: the resolved range, its total, its daily breakdown, its rows newest first, and the form (none for non-staff, the rejected submission, or a blank form dated today). A month outside the calendar is the error page |
| `Views.ExpenseStore.MonthlyView` | expenses/views.py:80-90 | a calendar month yields its total and its rows oldest first; any other month is the error page |
| `Views.ExpenseStore.ApiExpenses` | expenses/views.py:93-99 | the API returns every row exactly once. Dates are non-increasing and ids strictly decrease within a date |
| `Views.ExpenseStore.EditExpense` | expenses/views.py:128-149 | non-staff are refused and an unknown key is not found, both with no change. A valid POST rewrites only that row's four fields. Otherwise the table is unchanged and the form is shown with the row and any rejected submission |
| `Views.ExpenseStore.DeleteExpense` | expenses/views.py:152-165 | non-staff are refused and an unknown key is not found, both with no change. A POST removes exactly that row and nothing else. A GET asks for confirmation with no change |

## Findings

| source | as written | input that shows it | evidently intended | confidence | as-written member | corrected member |
|---|---|---|---|---|---|---|
| expenses/models.py:11 | the currency literal holds the three characters U+00E2 U+201A U+00B9 ("â‚¹"). These are the UTF-8 bytes of the rupee sign read as Windows-1252 and stored again | an expense of 12.50 for "Food" on 2024-01-05 renders "2024-01-05 - â‚¹12.50 - Food" | "2024-01-05 - ₹12.50 - Food", with the single character U+20B9 | medium; not executed | `Models.ExpenseStrAsWrittenLacksRupeeSign` | `Models.ExpenseStrFields` |

## Left out

- Authentication (`login_view`, `logout_view`, `authenticate`, `login`, `logout`): these are calls
  into the framework's auth library. The staff flag is an input.
- The shared-password login and the view-access gate are not part of this model. No handler for
  them appears in expenses/views.py. Only the `ViewPassword` table constraints are modelled.
- Adding, toggling and deleting `ViewPassword` rows through a management screen is not part of this
  model: those handlers are not in the modelled files. `CreateViewPassword` is the table-level insert.
- Templates, redirects and the `messages` framework are left out; a response is reduced to a
  datatype.
- The `filter_start or start` and `filter_end or end` values echoed into the dashboard context
  (expenses/views.py:74-75) are left out as presentation. The page's year and month are modelled.
- `timezone.localdate()` is left out; today is a parameter.
- `int()` failures on the `year`/`month` query parameters are left out. They arrive as optional
  integers.
- `ParseIsoDate` accepts only the strict `YYYY-MM-DD` form with ASCII digits. `strptime` is more
  lenient: it accepts one-digit months and days ("2024-1-5") and a space-padded day
  ("2024-01- 5"), and its digit pattern also matches non-ASCII decimal digits, which `int()`
  converts. The model reports all of these as a date error.
- `FormatIsoDate` always pads the year to four digits. For years below 1000, what `%Y` prints
  depends on the platform.
- Form input parsing and whitespace stripping of text fields are left out. The form arrives as
  typed `ExpenseFields`, and `ValidFields` is the validity check.
- `created_at` is an integer timestamp. Rows with equal timestamps come back in an order the
  database leaves unspecified. `ListViewPasswords` picks one such order and promises only the
  newest-first property.
- `CreateViewPassword` does not reject passwords or labels over the length limits
  (`ValidPasswordFields`). A plain database insert does not run field validation. Its contract
  says instead when the table stays within the limits.
- `EditExpense`: on a staff POST whose form fails validation, the model's `EditForm` carries the
  row as stored. The code's page shows the in-memory instance, onto which the framework's form
  validation has already copied every field that did validate. Per-field validation is not
  modelled. Either way the table is unchanged.
- `FormatAmount` and the `__str__` renderings describe rows as read back from the database, with
  two decimal places. An instance built from form input such as "12.5" keeps the exponent it was
  typed with until it is read back, so its `str` shows "12.5".
- Concurrency and transactions are left out: each request runs alone against the table.
- expenses/forms.py (widget attributes), expenses/urls.py (routing) and expenses/admin.py
  (admin display) hold no logic that is modelled.
