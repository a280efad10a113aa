/**
 * The request handlers of the expense views, with the database replaced by
 * an in-memory table, "today" and the staff flag passed in, and every
 * rendered page or redirect reduced to the values it carries.
 */
module Views {
  import opened Wrappers
  import opened Dates
  import opened Ordering
  import opened Models
  import opened Queries

  // --------------------------------------------------- the expense table

  predicate HasId(rows: seq<Expense>, id: int) {
    exists i :: 0 <= i < |rows| && rows[i].id == id
  }

  predicate UniqueIds(rows: seq<Expense>) {
    forall i, j :: 0 <= i < j < |rows| ==> rows[i].id != rows[j].id
  }

  /** The table as the database keeps it: one row per key, every row as validated. */
  predicate WellFormed(rows: seq<Expense>) {
    && UniqueIds(rows)
    && forall i :: 0 <= i < |rows| ==> ValidFields(FieldsOf(rows[i]))
  }

  /** Every key in use is below `bound`, the next key the table will hand out. */
  predicate KeysBelow(rows: seq<Expense>, bound: int) {
    forall i :: 0 <= i < |rows| ==> rows[i].id < bound
  }

  lemma RemoveRowKeepsKeysBelow(rows: seq<Expense>, id: int, bound: int)
    requires KeysBelow(rows, bound)
    ensures KeysBelow(RemoveRow(rows, id), bound)
  {
    var r := RemoveRow(rows, id);
    forall i | 0 <= i < |r| ensures r[i].id < bound {
      var e := r[i];
      assert multiset(r)[e] > 0;
      assert e in rows;
      var j :| 0 <= j < |rows| && rows[j] == e;
    }
  }

  /** `get_object_or_404(Expense, id=id)` without the 404: the row with that key, if any. */
  function Find(rows: seq<Expense>, id: int): (r: Option<Expense>)
    ensures r.Some? <==> HasId(rows, id)
    ensures r.Some? ==> r.value in rows && r.value.id == id
  {
    if rows == [] then None
    else if rows[0].id == id then Some(rows[0])
    else
      var r := Find(rows[1..], id);
      assert HasId(rows, id) ==> rows[0].id == id || HasId(rows[1..], id) by {
        if HasId(rows, id) {
          var i :| 0 <= i < |rows| && rows[i].id == id;
          if i > 0 { assert rows[1..][i - 1].id == id; }
        }
      }
      assert r.Some? ==> HasId(rows, id) by {
        if r.Some? {
          var k :| 0 <= k < |rows[1..]| && rows[1..][k].id == id;
          assert rows[k + 1].id == id;
        }
      }
      r
  }

  /** Saving the edit form: the row keyed `id` takes the four submitted fields. */
  function UpdateRow(rows: seq<Expense>, id: int, f: ExpenseFields): (r: seq<Expense>)
    ensures |r| == |rows|
    ensures forall i :: 0 <= i < |rows| ==> r[i].id == rows[i].id
    ensures forall i :: 0 <= i < |rows| && rows[i].id == id ==> FieldsOf(r[i]) == f
    ensures forall i :: 0 <= i < |rows| && rows[i].id != id ==> r[i] == rows[i]
  {
    seq(|rows|, i requires 0 <= i < |rows| => if rows[i].id == id then WithFields(id, f) else rows[i])
  }

  /** `expense.delete()`: every row keyed `id` leaves the table. */
  function RemoveRow(rows: seq<Expense>, id: int): (r: seq<Expense>)
    ensures forall e :: multiset(r)[e] == if e.id == id then 0 else multiset(rows)[e]
  {
    if rows == [] then []
    else
      assert rows == [rows[0]] + rows[1..];
      (if rows[0].id == id then [] else [rows[0]]) + RemoveRow(rows[1..], id)
  }

  /** The new row a valid add form is saved as, under the next key. */
  function AddRow(rows: seq<Expense>, nextId: int, f: ExpenseFields): (r: seq<Expense>)
    ensures |r| == |rows| + 1 && r[..|rows|] == rows
    ensures r[|rows|].id == nextId && FieldsOf(r[|rows|]) == f
  {
    rows + [WithFields(nextId, f)]
  }

  /** Rows of a table with unique keys occur once each. */
  lemma OccursAtMostOnce(rows: seq<Expense>, x: Expense)
    requires UniqueIds(rows)
    ensures multiset(rows)[x] <= 1
  {
    if x in rows {
      var a :| 0 <= a < |rows| && rows[a] == x;
      assert rows == rows[..a] + [rows[a]] + rows[a + 1..];
      assert forall k :: 0 <= k < a ==> rows[..a][k].id != x.id;
      assert x !in rows[..a] && x !in rows[a + 1..];
    }
  }

  lemma RepeatedElement<T>(s: seq<T>, i: int, j: int)
    requires 0 <= i < j < |s|
    ensures s[i] == s[j] ==> multiset(s)[s[i]] >= 2
  {
    assert s == s[..i] + [s[i]] + s[i + 1..j] + [s[j]] + s[j + 1..];
  }

  /** Rows drawn, each at most once, from a table with unique keys have unique keys. */
  lemma DistinctIdsInSubset(rows: seq<Expense>, sub: seq<Expense>)
    requires UniqueIds(rows)
    requires forall e :: multiset(sub)[e] <= multiset(rows)[e]
    ensures UniqueIds(sub)
  {
    forall i, j | 0 <= i < j < |sub| ensures sub[i].id != sub[j].id {
      OccursAtMostOnce(rows, sub[i]);
      RepeatedElement(sub, i, j);
      assert sub[i] in multiset(rows) && sub[j] in multiset(rows);
      var a :| 0 <= a < |rows| && rows[a] == sub[i];
      var b :| 0 <= b < |rows| && rows[b] == sub[j];
      assert sub[i].id == sub[j].id ==> a == b;
    }
  }

  /** Deleting a missing key changes nothing. */
  lemma {:induction false} RemoveMissingRow(rows: seq<Expense>, id: int)
    requires !HasId(rows, id)
    ensures RemoveRow(rows, id) == rows
  {
    if rows != [] {
      MissingIdInTail(rows, id);
      RemoveMissingRow(rows[1..], id);
      assert RemoveRow(rows, id) == [rows[0]] + RemoveRow(rows[1..], id);
      assert rows == [rows[0]] + rows[1..];
    }
  }

  lemma MissingIdInTail(rows: seq<Expense>, id: int)
    requires !HasId(rows, id) && rows != []
    ensures rows[0].id != id && !HasId(rows[1..], id)
  {
    forall k | 0 <= k < |rows[1..]| ensures rows[1..][k].id != id {
      assert rows[1..][k] == rows[k + 1];
    }
  }

  /** Deleting a present key removes exactly one row and leaves no row with that key. */
  lemma RemoveRowRemovesOne(rows: seq<Expense>, id: int)
    requires UniqueIds(rows) && HasId(rows, id)
    ensures |RemoveRow(rows, id)| == |rows| - 1
    ensures !HasId(RemoveRow(rows, id), id)
  {
    RemovedLength(rows, id);
    var r := RemoveRow(rows, id);
    forall k | 0 <= k < |r| ensures r[k].id != id {
      assert r[k] in multiset(r);
    }
  }

  lemma {:induction false} RemovedLength(rows: seq<Expense>, id: int)
    requires UniqueIds(rows) && HasId(rows, id)
    ensures |RemoveRow(rows, id)| == |rows| - 1
  {
    var tail := rows[1..];
    if rows[0].id == id {
      NoIdInTail(rows, id);
      RemoveMissingRow(tail, id);
    } else {
      IdInTail(rows, id);
      UniqueIdsTail(rows);
      RemovedLength(tail, id);
    }
  }

  lemma NoIdInTail(rows: seq<Expense>, id: int)
    requires UniqueIds(rows) && rows != [] && rows[0].id == id
    ensures !HasId(rows[1..], id)
  {
    forall k | 0 <= k < |rows[1..]| ensures rows[1..][k].id != id {
      assert rows[1..][k] == rows[k + 1];
    }
  }

  lemma IdInTail(rows: seq<Expense>, id: int)
    requires HasId(rows, id) && rows[0].id != id
    ensures HasId(rows[1..], id)
  {
    var i :| 0 <= i < |rows| && rows[i].id == id;
    assert rows[1..][i - 1].id == id;
  }

  lemma UniqueIdsTail(rows: seq<Expense>)
    requires UniqueIds(rows) && rows != []
    ensures UniqueIds(rows[1..])
  {
    var tail := rows[1..];
    forall p, q | 0 <= p < q < |tail| ensures tail[p].id != tail[q].id {
      assert tail[p] == rows[p + 1] && tail[q] == rows[q + 1];
    }
  }

  lemma UpdateRowWellFormed(rows: seq<Expense>, id: int, f: ExpenseFields)
    requires WellFormed(rows) && ValidFields(f)
    ensures WellFormed(UpdateRow(rows, id, f))
  {
  }

  lemma RemoveRowWellFormed(rows: seq<Expense>, id: int)
    requires WellFormed(rows)
    ensures WellFormed(RemoveRow(rows, id))
  {
    var r := RemoveRow(rows, id);
    forall i | 0 <= i < |r| ensures ValidFields(FieldsOf(r[i])) {
      assert r[i] in multiset(r);
    }
    DistinctIdsInSubset(rows, r);
  }

  // --------------------------------------------------- date range resolution

  /** A query parameter Python reads as true: present and not empty. */
  predicate Given(p: Option<string>) {
    p.Some? && p.value != ""
  }

  /**
   * The range the dashboard settles on. Without both filters: the month.
   * With both: the parsed start replaces the month's first day, and then
   * the parsed end its last day; the first parse that fails stops the
   * replacement there and records a date error.
   */
  predicate RangeResolved(year: int, month: int, filterStart: Option<string>, filterEnd: Option<string>,
                          start: Date, end: Date, dateError: bool)
    requires ValidYear(year) && 1 <= month <= 12
  {
    var monthStart := MonthRange(year, month).0;
    var monthEnd := MonthRange(year, month).1;
    if !(Given(filterStart) && Given(filterEnd)) then
      start == monthStart && end == monthEnd && !dateError
    else
      var ps := ParseIsoDate(filterStart.value);
      var pe := ParseIsoDate(filterEnd.value);
      && dateError == (ps.None? || pe.None?)
      && start == (if ps.Some? then ps.value else monthStart)
      && end == (if ps.Some? && pe.Some? then pe.value else monthEnd)
  }

  /** The range-resolution steps of `dashboard`. */
  method ResolveRange(year: int, month: int, filterStart: Option<string>, filterEnd: Option<string>)
    returns (start: Date, end: Date, dateError: bool)
    requires ValidYear(year) && 1 <= month <= 12
    ensures RangeResolved(year, month, filterStart, filterEnd, start, end, dateError)
    ensures ValidDate(start) && ValidDate(end)
  {
    start, end := MonthRange(year, month).0, MonthRange(year, month).1;
    dateError := false;
    if Given(filterStart) && Given(filterEnd) {
      var parsedStart := ParseIsoDate(filterStart.value);
      if parsedStart.None? {
        dateError := true;
      } else {
        start := parsedStart.value;
        var parsedEnd := ParseIsoDate(filterEnd.value);
        if parsedEnd.None? {
          dateError := true;
        } else {
          end := parsedEnd.value;
        }
      }
    }
  }

  // ---------------------------------------------------------- the listings

  /** With unique keys no two rows share a listing key, in either direction. */
  lemma UniqueIdsDistinctKeys(s: seq<Expense>)
    requires UniqueIds(s)
    ensures DistinctKeys(s, DateIdDescending) && DistinctKeys(s, DateIdAscending)
  {
    forall x, y | x in s && y in s && x.id == y.id ensures x == y {
      var i :| 0 <= i < |s| && s[i] == x;
      var j :| 0 <= j < |s| && s[j] == y;
      assert !(i < j) && !(j < i);
    }
    forall x, y | x in s && y in s && DateIdDescending(x) == DateIdDescending(y) ensures x == y {
      assert DateIdDescending(x)[3] == -x.id && DateIdDescending(y)[3] == -y.id;
    }
    forall x, y | x in s && y in s && DateIdAscending(x) == DateIdAscending(y) ensures x == y {
      assert DateIdAscending(x)[3] == x.id && DateIdAscending(y)[3] == y.id;
    }
  }

  /**
   * What the dashboard lists for a range: exactly the in-range rows, each
   * once, newest date first and larger key first on one date.
   */
  lemma DashboardListingCorrect(rows: seq<Expense>, start: Date, end: Date)
    requires UniqueIds(rows)
    ensures var listed := SortBy(Filter(rows, start, end), DateIdDescending);
            && (forall e :: multiset(listed)[e] == if InRange(e.date, start, end) then multiset(rows)[e] else 0)
            && (forall i, j :: 0 <= i < j < |listed| ==>
                  DateLe(listed[j].date, listed[i].date)
                  && (listed[i].date == listed[j].date ==> listed[j].id < listed[i].id))
            && Total(listed) == Total(Filter(rows, start, end))
  {
    var inRange := Filter(rows, start, end);
    var listed := SortBy(inRange, DateIdDescending);
    SortBySorted(inRange, DateIdDescending);
    SortedDescendingMeaning(listed);
    TotalOfPermutation(listed, inRange);
    DistinctIdsInSubset(rows, listed);
  }

  /**
   * The dashboard's ordering has one answer: with unique keys, any ordering
   * of the in-range rows by `("-date", "-id")` is the listing.
   */
  lemma DashboardListingUnique(rows: seq<Expense>, start: Date, end: Date, r: seq<Expense>)
    requires UniqueIds(rows)
    requires multiset(r) == multiset(Filter(rows, start, end))
    requires SortedBy(r, DateIdDescending)
    ensures r == SortBy(Filter(rows, start, end), DateIdDescending)
  {
    var inRange := Filter(rows, start, end);
    var listed := SortBy(inRange, DateIdDescending);
    SortBySorted(inRange, DateIdDescending);
    DistinctIdsInSubset(rows, listed);
    UniqueIdsDistinctKeys(listed);
    SortedPermutationUnique(listed, r, DateIdDescending);
  }

  /**
   * A dashboard filter spanning two consecutive months totals what the
   * monthly view shows for the first month plus what it shows for the second.
   */
  lemma ConsecutiveMonthTotals(rows: seq<Expense>, y: int, m: int)
    requires DatesValid(rows)
    requires ValidYear(y) && 1 <= m <= 12
    requires m == 12 ==> y < MaxYear
    ensures var first := MonthRange(y, m);
            var second := if m < 12 then MonthRange(y, m + 1) else MonthRange(y + 1, 1);
            Total(Filter(rows, first.0, second.1))
            == Total(Filter(rows, first.0, first.1)) + Total(Filter(rows, second.0, second.1))
  {
    var first := MonthRange(y, m);
    var second := if m < 12 then MonthRange(y, m + 1) else MonthRange(y + 1, 1);
    MonthRangesAreAdjacent(y, m);
    DateOrderIsStrictTotal(first.1, second.0, second.1);
    SplitRangeTotal(rows, first.0, first.1, second.1);
    TotalOfFilter(rows, first.0, second.1);
    TotalOfFilter(rows, first.0, first.1);
    TotalOfFilter(rows, second.0, second.1);
  }

  /** The monthly view's list: the in-range rows, oldest date first, then by key. */
  lemma MonthlyListingCorrect(rows: seq<Expense>, start: Date, end: Date)
    requires UniqueIds(rows)
    ensures var listed := SortBy(Filter(rows, start, end), DateIdAscending);
            && (forall e :: multiset(listed)[e] == if InRange(e.date, start, end) then multiset(rows)[e] else 0)
            && (forall i, j :: 0 <= i < j < |listed| ==>
                  DateLe(listed[i].date, listed[j].date)
                  && (listed[i].date == listed[j].date ==> listed[i].id < listed[j].id))
            && Total(listed) == Total(Filter(rows, start, end))
  {
    var inRange := Filter(rows, start, end);
    var listed := SortBy(inRange, DateIdAscending);
    SortBySorted(inRange, DateIdAscending);
    SortedAscendingMeaning(listed);
    TotalOfPermutation(listed, inRange);
    DistinctIdsInSubset(rows, listed);
  }

  /** Likewise the monthly view's `("date", "id")` ordering has one answer. */
  lemma MonthlyListingUnique(rows: seq<Expense>, start: Date, end: Date, r: seq<Expense>)
    requires UniqueIds(rows)
    requires multiset(r) == multiset(Filter(rows, start, end))
    requires SortedBy(r, DateIdAscending)
    ensures r == SortBy(Filter(rows, start, end), DateIdAscending)
  {
    var inRange := Filter(rows, start, end);
    var listed := SortBy(inRange, DateIdAscending);
    SortBySorted(inRange, DateIdAscending);
    DistinctIdsInSubset(rows, listed);
    UniqueIdsDistinctKeys(listed);
    SortedPermutationUnique(listed, r, DateIdAscending);
  }

  // ----------------------------------------------------------- responses

  datatype Request = Get | Post(form: ExpenseFields)

  /** The add form the dashboard shows: none, blank with today's date, or the rejected submission. */
  datatype FormState = NoForm | BlankForm(initialDate: Date) | BoundForm(submitted: ExpenseFields)

  datatype DashboardQuery = DashboardQuery(year: Option<int>, month: Option<int>,
                                           filterStart: Option<string>, filterEnd: Option<string>)

  datatype DashboardPage =
    | ExpenseAdded
    | MonthOutOfRange
    | DashboardPage(year: int, month: int, start: Date, end: Date, dateError: bool,
                    total: Cents, daily: seq<DayTotal>, expenses: seq<Expense>, form: FormState)

  datatype MonthlyPage =
    | MonthlyOutOfRange
    | MonthlyPage(year: int, month: int, total: Cents, expenses: seq<Expense>)

  datatype EditResponse =
    | EditDenied
    | EditNotFound
    | ExpenseUpdated
    | EditForm(expense: Expense, submitted: Option<ExpenseFields>)

  datatype DeleteResponse =
    | DeleteDenied
    | DeleteNotFound
    | ExpenseDeleted
    | ConfirmDelete(expense: Expense)

  // --------------------------------------------------------- the handlers

  class ExpenseStore {
    var rows: seq<Expense>
    var nextId: int

    ghost predicate Valid()
      reads this
    {
      && WellFormed(rows)
      && 1 <= nextId
      && KeysBelow(rows, nextId)
    }

    constructor ()
      ensures Valid() && rows == [] && nextId == 1
    {
      rows := [];
      nextId := 1;
    }

    /**
     * `dashboard`: a staff POST of a valid form adds a row and redirects;
     * anything else renders the resolved range, its total, its daily
     * breakdown and its rows, and leaves the table alone.
     */
    method Dashboard(query: DashboardQuery, request: Request, today: Date, isStaff: bool)
      returns (page: DashboardPage)
      requires Valid() && ValidDate(today)
      modifies this
      ensures Valid()
      ensures request.Post? && isStaff && ValidFields(request.form) ==>
                && page == ExpenseAdded
                && rows == AddRow(old(rows), old(nextId), request.form)
                && nextId == old(nextId) + 1
      ensures !(request.Post? && isStaff && ValidFields(request.form)) ==>
                && rows == old(rows) && nextId == old(nextId)
                && page != ExpenseAdded
      ensures var year := query.year.GetOr(today.year);
              var month := query.month.GetOr(today.month);
              && (page == MonthOutOfRange ==> !(ValidYear(year) && 1 <= month <= 12))
              && (page.DashboardPage? ==>
                    && ValidYear(year) && 1 <= month <= 12
                    && page.year == year && page.month == month
                    && RangeResolved(year, month, query.filterStart, query.filterEnd,
                                     page.start, page.end, page.dateError)
                    && page.total == Total(Filter(rows, page.start, page.end))
                    && page.daily == Breakdown(Filter(rows, page.start, page.end))
                    && page.expenses == SortBy(Filter(rows, page.start, page.end), DateIdDescending)
                    && page.form == (if !isStaff then NoForm
                                     else if request.Post? then BoundForm(request.form)
                                     else BlankForm(today)))
    {
      var year := query.year.GetOr(today.year);
      var month := query.month.GetOr(today.month);
      var form: FormState;
      if request.Post? && isStaff {
        if ValidFields(request.form) {
          rows := AddRow(rows, nextId, request.form);
          nextId := nextId + 1;
          return ExpenseAdded;
        }
        form := BoundForm(request.form);
      } else {
        form := if isStaff then BlankForm(today) else NoForm;
      }
      if !(ValidYear(year) && 1 <= month <= 12) {
        return MonthOutOfRange;
      }
      var start, end, dateError := ResolveRange(year, month, query.filterStart, query.filterEnd);
      var inRange := Filter(rows, start, end);
      page := DashboardPage(year, month, start, end, dateError, Total(inRange), Breakdown(inRange),
                            SortBy(inRange, DateIdDescending), form);
    }

    /** `monthly_view`: the month's rows oldest first and their total. */
    method MonthlyView(year: int, month: int) returns (page: MonthlyPage)
      requires Valid()
      ensures page.MonthlyPage? <==> ValidYear(year) && 1 <= month <= 12
      ensures page.MonthlyPage? ==>
                var (start, end) := MonthRange(year, month);
                && page.year == year && page.month == month
                && page.total == Total(Filter(rows, start, end))
                && page.expenses == SortBy(Filter(rows, start, end), DateIdAscending)
    {
      if !(ValidYear(year) && 1 <= month <= 12) {
        return MonthlyOutOfRange;
      }
      var (start, end) := MonthRange(year, month);
      var listed := SortBy(Filter(rows, start, end), DateIdAscending);
      page := MonthlyPage(year, month, Total(Filter(rows, start, end)), listed);
    }

    /** `api_expenses`: every row, newest date first, then larger key first. */
    method ApiExpenses() returns (data: seq<Expense>)
      requires Valid()
      ensures multiset(data) == multiset(rows)
      ensures forall i, j :: 0 <= i < j < |data| ==>
                DateLe(data[j].date, data[i].date)
                && (data[i].date == data[j].date ==> data[j].id < data[i].id)
    {
      data := SortBy(rows, DateIdDescending);
      SortBySorted(rows, DateIdDescending);
      SortedDescendingMeaning(data);
      DistinctIdsInSubset(rows, data);
    }

    /**
     * `edit_expense`: staff only; an unknown key is not found; a valid POST
     * rewrites that row's four fields and nothing else; otherwise the form
     * is shown and the table is unchanged.
     */
    method EditExpense(id: int, request: Request, isStaff: bool) returns (response: EditResponse)
      requires Valid()
      modifies this
      ensures Valid() && nextId == old(nextId)
      ensures !isStaff ==> response == EditDenied && rows == old(rows)
      ensures isStaff && !HasId(old(rows), id) ==> response == EditNotFound && rows == old(rows)
      ensures isStaff && HasId(old(rows), id) && request.Post? && ValidFields(request.form) ==>
                response == ExpenseUpdated && rows == UpdateRow(old(rows), id, request.form)
      ensures isStaff && HasId(old(rows), id) && !(request.Post? && ValidFields(request.form)) ==>
                && rows == old(rows)
                && response == EditForm(Find(old(rows), id).value,
                                        if request.Post? then Some(request.form) else None)
    {
      if !isStaff {
        return EditDenied;
      }
      var found := Find(rows, id);
      if found.None? {
        return EditNotFound;
      }
      if request.Post? {
        if ValidFields(request.form) {
          UpdateRowWellFormed(rows, id, request.form);
          rows := UpdateRow(rows, id, request.form);
          return ExpenseUpdated;
        }
        return EditForm(found.value, Some(request.form));
      }
      response := EditForm(found.value, None);
    }

    /**
     * `delete_expense`: staff only; an unknown key is not found; a POST
     * removes that row and nothing else; a GET asks for confirmation.
     */
    method DeleteExpense(id: int, isPost: bool, isStaff: bool) returns (response: DeleteResponse)
      requires Valid()
      modifies this
      ensures Valid() && nextId == old(nextId)
      ensures !isStaff ==> response == DeleteDenied && rows == old(rows)
      ensures isStaff && !HasId(old(rows), id) ==> response == DeleteNotFound && rows == old(rows)
      ensures isStaff && HasId(old(rows), id) && isPost ==>
                && response == ExpenseDeleted
                && rows == RemoveRow(old(rows), id)
                && |rows| == |old(rows)| - 1
      ensures isStaff && HasId(old(rows), id) && !isPost ==>
                response == ConfirmDelete(Find(old(rows), id).value) && rows == old(rows)
    {
      if !isStaff {
        return DeleteDenied;
      }
      var found := Find(rows, id);
      if found.None? {
        return DeleteNotFound;
      }
      if isPost {
        RemoveRowWellFormed(rows, id);
        RemoveRowRemovesOne(rows, id);
        RemoveRowKeepsKeysBelow(rows, id, nextId);
        rows := RemoveRow(rows, id);
        return ExpenseDeleted;
      }
      response := ConfirmDelete(found.value);
    }
  }
}
