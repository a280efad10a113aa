/**
 * The read queries the views run over the expense table: an inclusive date
 * range filter, the sum of amounts (0 over no rows), the per-day group-by
 * sum ordered by date, and the `ORDER BY` keys of the listings.
 */
module Queries {
  import opened Dates
  import opened Ordering
  import opened Models

  /** `date__range=(start, end)`: inclusive at both ends. */
  predicate InRange(d: Date, start: Date, end: Date) {
    DateLe(start, d) && DateLe(d, end)
  }

  /** The rows whose date lies in the range, in table order. */
  function Filter(rows: seq<Expense>, start: Date, end: Date): (r: seq<Expense>)
    ensures forall e :: multiset(r)[e] == if InRange(e.date, start, end) then multiset(rows)[e] else 0
  {
    if rows == [] then []
    else
      assert rows == [rows[0]] + rows[1..];
      (if InRange(rows[0].date, start, end) then [rows[0]] else []) + Filter(rows[1..], start, end)
  }

  /** The rows dated exactly `d`. */
  function OnDate(rows: seq<Expense>, d: Date): (r: seq<Expense>)
    ensures forall e :: multiset(r)[e] == if e.date == d then multiset(rows)[e] else 0
  {
    if rows == [] then []
    else
      assert rows == [rows[0]] + rows[1..];
      (if rows[0].date == d then [rows[0]] else []) + OnDate(rows[1..], d)
  }

  /** `Sum("amount")`, with no rows giving 0 (the `or 0` fallback). */
  function Total(rows: seq<Expense>): Cents {
    if rows == [] then 0 else rows[0].amount + Total(rows[1..])
  }

  lemma {:induction false} TotalAppend(a: seq<Expense>, b: seq<Expense>)
    ensures Total(a + b) == Total(a) + Total(b)
  {
    if a == [] {
      assert a + b == b;
    } else {
      assert (a + b)[0] == a[0];
      assert (a + b)[1..] == a[1..] + b;
      TotalAppend(a[1..], b);
    }
  }

  /** Dropping the row at `k` takes its amount off the total. */
  lemma {:induction false} TotalRemove(s: seq<Expense>, k: int)
    requires 0 <= k < |s|
    ensures Total(s) == s[k].amount + Total(s[..k] + s[k + 1..])
  {
    if k == 0 {
      assert s[..0] + s[1..] == s[1..];
    } else {
      var tail := s[1..];
      TotalRemove(tail, k - 1);
      assert tail[k - 1] == s[k];
      assert s[..k] + s[k + 1..] == [s[0]] + (tail[..k - 1] + tail[k..]);
      TotalCons(s[0], tail[..k - 1] + tail[k..]);
    }
  }

  lemma TotalCons(e: Expense, s: seq<Expense>)
    ensures Total([e] + s) == e.amount + Total(s)
  {
    assert ([e] + s)[1..] == s;
  }

  /** The total depends on which rows there are, not on their order. */
  lemma {:induction false} TotalOfPermutation(a: seq<Expense>, b: seq<Expense>)
    requires multiset(a) == multiset(b)
    ensures Total(a) == Total(b)
    decreases |a|
  {
    if a != [] {
      var k := IndexOf(b, a[0]);
      var rest := b[..k] + b[k + 1..];
      PermutationTail(a, b, k);
      TotalOfPermutation(a[1..], rest);
      TotalRemove(b, k);
      assert Total(a) == a[0].amount + Total(a[1..]);
    }
  }

  lemma PermutationTail<T>(a: seq<T>, b: seq<T>, k: int)
    requires multiset(a) == multiset(b)
    requires a != [] && 0 <= k < |b| && b[k] == a[0]
    ensures multiset(a[1..]) == multiset(b[..k] + b[k + 1..])
  {
    assert a == [a[0]] + a[1..];
    assert b == b[..k] + [b[k]] + b[k + 1..];
    var left, right := multiset(a[1..]), multiset(b[..k] + b[k + 1..]);
    assert multiset(b) == right + multiset{b[k]};
    assert multiset(a) == left + multiset{a[0]};
    assert left == (left + multiset{a[0]}) - multiset{a[0]};
    assert right == (right + multiset{a[0]}) - multiset{a[0]};
  }

  lemma IndexOf(s: seq<Expense>, x: Expense) returns (k: int)
    requires x in multiset(s)
    ensures 0 <= k < |s| && s[k] == x
  {
    k :| 0 <= k < |s| && s[k] == x;
  }

  /**
   * The total over the range is the sum over the whole table with every
   * row outside the range counted as 0; an empty or inverted range totals 0.
   */
  lemma {:induction false} TotalOfFilter(rows: seq<Expense>, start: Date, end: Date)
    ensures Total(Filter(rows, start, end)) == MaskedTotal(rows, start, end)
    ensures DateLt(end, start) ==> Total(Filter(rows, start, end)) == 0
  {
    if rows != [] {
      var head := if InRange(rows[0].date, start, end) then [rows[0]] else [];
      TotalOfFilter(rows[1..], start, end);
      TotalAppend(head, Filter(rows[1..], start, end));
      DateOrderIsStrictTotal(start, rows[0].date, end);
      DateOrderIsStrictTotal(rows[0].date, end, start);
    }
  }

  /** Sum of amounts, each row outside the range replaced by 0. */
  function MaskedTotal(rows: seq<Expense>, start: Date, end: Date): Cents {
    if rows == [] then 0
    else (if InRange(rows[0].date, start, end) then rows[0].amount else 0) + MaskedTotal(rows[1..], start, end)
  }

  /** Every row carries a calendar date. */
  predicate DatesValid(rows: seq<Expense>) {
    forall i :: 0 <= i < |rows| ==> ValidDate(rows[i].date)
  }

  /**
   * Inclusive ranges split cleanly: cutting [start, end] after day `mid`
   * gives [start, mid] and [NextDay(mid), end], and the two totals add up
   * to the whole; the boundary day is counted once.
   */
  lemma {:induction false} SplitRangeTotal(rows: seq<Expense>, start: Date, mid: Date, end: Date)
    requires DatesValid(rows) && ValidDate(mid)
    requires DateLe(start, mid) && DateLe(mid, end)
    ensures MaskedTotal(rows, start, end)
            == MaskedTotal(rows, start, mid) + MaskedTotal(rows, NextDay(mid), end)
  {
    if rows != [] {
      var x := rows[0].date;
      var next := NextDay(mid);
      DateOrderIsStrictTotal(x, mid, next);
      DateOrderIsStrictTotal(start, mid, x);
      DateOrderIsStrictTotal(x, mid, end);
      DateOrderIsStrictTotal(mid, next, x);
      DateOrderIsStrictTotal(x, next, end);
      assert InRange(x, start, end) <==> InRange(x, start, mid) || InRange(x, next, end);
      assert !(InRange(x, start, mid) && InRange(x, next, end));
      SplitRangeTotal(rows[1..], start, mid, end);
    }
  }

  // ------------------------------------------------------- daily breakdown

  /** One row of `values("date").annotate(total=Sum("amount"))`. */
  datatype DayTotal = DayTotal(date: Date, total: Cents)

  predicate StrictlyAscending(bd: seq<DayTotal>) {
    forall i, j :: 0 <= i < j < |bd| ==> DateLt(bd[i].date, bd[j].date)
  }

  function DatesOf(bd: seq<DayTotal>): set<Date> {
    if bd == [] then {} else {bd[0].date} + DatesOf(bd[1..])
  }

  function ExpenseDates(rows: seq<Expense>): set<Date> {
    if rows == [] then {} else {rows[0].date} + ExpenseDates(rows[1..])
  }

  lemma {:induction false} InDatesOf(bd: seq<DayTotal>, x: Date)
    ensures x in DatesOf(bd) <==> exists k :: 0 <= k < |bd| && bd[k].date == x
  {
    if bd != [] {
      InDatesOf(bd[1..], x);
      if exists k :: 0 <= k < |bd| && bd[k].date == x {
        var k :| 0 <= k < |bd| && bd[k].date == x;
        if k > 0 {
          assert bd[1..][k - 1].date == x;
        }
      }
    }
  }

  /** The sum of the totals recorded for date `d`. */
  function TotalAt(bd: seq<DayTotal>, d: Date): Cents {
    if bd == [] then 0 else (if bd[0].date == d then bd[0].total else 0) + TotalAt(bd[1..], d)
  }

  function SumOfTotals(bd: seq<DayTotal>): Cents {
    if bd == [] then 0 else bd[0].total + SumOfTotals(bd[1..])
  }

  /** Adds one row's amount to its date's group, opening the group in date order if new. */
  function AddToDay(bd: seq<DayTotal>, d: Date, amount: Cents): (r: seq<DayTotal>)
    ensures DatesOf(r) == DatesOf(bd) + {d}
    ensures SumOfTotals(r) == SumOfTotals(bd) + amount
  {
    if bd == [] then [DayTotal(d, amount)]
    else if bd[0].date == d then
      assert ([DayTotal(d, bd[0].total + amount)] + bd[1..])[1..] == bd[1..];
      [DayTotal(d, bd[0].total + amount)] + bd[1..]
    else if DateLt(d, bd[0].date) then
      assert ([DayTotal(d, amount)] + bd)[1..] == bd;
      [DayTotal(d, amount)] + bd
    else
      var rest := AddToDay(bd[1..], d, amount);
      assert ([bd[0]] + rest)[1..] == rest;
      [bd[0]] + rest
  }

  /** The per-day breakdown of `rows`, one entry per distinct date, ascending. */
  function Breakdown(rows: seq<Expense>): (r: seq<DayTotal>)
    ensures DatesOf(r) == ExpenseDates(rows)
    ensures SumOfTotals(r) == Total(rows)
  {
    if rows == [] then []
    else
      assert ExpenseDates(rows) == {rows[0].date} + ExpenseDates(rows[1..]);
      AddToDay(Breakdown(rows[1..]), rows[0].date, rows[0].amount)
  }

  lemma {:induction false} AddToDayAscending(bd: seq<DayTotal>, d: Date, amount: Cents)
    requires StrictlyAscending(bd)
    ensures StrictlyAscending(AddToDay(bd, d, amount))
  {
    if bd != [] && bd[0].date != d && !DateLt(d, bd[0].date) {
      AddToDayAscending(bd[1..], d, amount);
      var rest := AddToDay(bd[1..], d, amount);
      forall j | 0 <= j < |rest| ensures DateLt(bd[0].date, rest[j].date) {
        InDatesOf(rest, rest[j].date);
        InDatesOf(bd[1..], rest[j].date);
        if rest[j].date != d {
          var k :| 0 <= k < |bd[1..]| && bd[1..][k].date == rest[j].date;
          assert bd[k + 1].date == rest[j].date;
        } else {
          DateOrderIsStrictTotal(d, bd[0].date, d);
        }
      }
    } else if bd != [] && DateLt(d, bd[0].date) {
      forall j | 0 <= j < |bd| ensures DateLt(d, bd[j].date) {
        DateOrderIsStrictTotal(d, bd[0].date, bd[j].date);
      }
    }
  }

  lemma {:induction false} AddToDayTotals(bd: seq<DayTotal>, d: Date, amount: Cents, x: Date)
    ensures TotalAt(AddToDay(bd, d, amount), x) == TotalAt(bd, x) + (if x == d then amount else 0)
  {
    if bd != [] && bd[0].date != d && !DateLt(d, bd[0].date) {
      AddToDayTotals(bd[1..], d, amount, x);
      assert ([bd[0]] + AddToDay(bd[1..], d, amount))[1..] == AddToDay(bd[1..], d, amount);
    } else if bd != [] && DateLt(d, bd[0].date) {
      assert ([DayTotal(d, amount)] + bd)[1..] == bd;
    } else if bd != [] {
      assert ([DayTotal(d, bd[0].total + amount)] + bd[1..])[1..] == bd[1..];
    }
  }

  lemma {:induction false} BreakdownAscending(rows: seq<Expense>)
    ensures StrictlyAscending(Breakdown(rows))
  {
    if rows != [] {
      BreakdownAscending(rows[1..]);
      AddToDayAscending(Breakdown(rows[1..]), rows[0].date, rows[0].amount);
    }
  }

  /** The breakdown's total for a date is the sum of that date's rows. */
  lemma {:induction false} BreakdownTotalAt(rows: seq<Expense>, x: Date)
    ensures TotalAt(Breakdown(rows), x) == Total(OnDate(rows, x))
  {
    if rows != [] {
      BreakdownTotalAt(rows[1..], x);
      AddToDayTotals(Breakdown(rows[1..]), rows[0].date, rows[0].amount, x);
      TotalAppend(if rows[0].date == x then [rows[0]] else [], OnDate(rows[1..], x));
    }
  }

  /** In an ascending breakdown, each entry's total is everything recorded for its date. */
  lemma {:induction false} EntryIsTotalAt(bd: seq<DayTotal>, i: int)
    requires StrictlyAscending(bd) && 0 <= i < |bd|
    ensures TotalAt(bd, bd[i].date) == bd[i].total
  {
    if i == 0 {
      AbsentTotalAt(bd[1..], bd[0].date);
    } else {
      EntryIsTotalAt(bd[1..], i - 1);
      DateOrderIsStrictTotal(bd[0].date, bd[i].date, bd[0].date);
    }
  }

  lemma {:induction false} AbsentTotalAt(bd: seq<DayTotal>, x: Date)
    requires forall j :: 0 <= j < |bd| ==> DateLt(x, bd[j].date)
    ensures TotalAt(bd, x) == 0
  {
    if bd != [] {
      DateOrderIsStrictTotal(x, x, x);
      AbsentTotalAt(bd[1..], x);
    }
  }

  /**
   * The daily breakdown over a range: strictly ascending by date, one entry
   * for each date some in-range row carries and no other, each entry the
   * sum of that date's in-range rows, and all entries adding up to the
   * range total.
   */
  lemma DailyBreakdownCorrect(rows: seq<Expense>, start: Date, end: Date)
    ensures var inRange := Filter(rows, start, end);
            var bd := Breakdown(inRange);
            && StrictlyAscending(bd)
            && DatesOf(bd) == ExpenseDates(inRange)
            && (forall i :: 0 <= i < |bd| ==> bd[i].total == Total(OnDate(inRange, bd[i].date)))
            && SumOfTotals(bd) == Total(inRange)
  {
    var inRange := Filter(rows, start, end);
    var bd := Breakdown(inRange);
    BreakdownAscending(inRange);
    forall i | 0 <= i < |bd| ensures bd[i].total == Total(OnDate(inRange, bd[i].date)) {
      EntryIsTotalAt(bd, i);
      BreakdownTotalAt(inRange, bd[i].date);
    }
  }

  // ------------------------------------------------------------ orderings

  /** `order_by("date", "id")`. */
  function DateIdAscending(e: Expense): Key {
    [e.date.year, e.date.month, e.date.day, e.id]
  }

  /** `order_by("-date", "-id")`. */
  function DateIdDescending(e: Expense): Key {
    [-e.date.year, -e.date.month, -e.date.day, -e.id]
  }

  /** `KeyLe` on four-column keys, spelled out column by column. */
  lemma KeyLeFourColumns(a: Key, b: Key)
    requires |a| == 4 && |b| == 4
    ensures KeyLe(a, b) <==>
              || a[0] < b[0]
              || (a[0] == b[0] && a[1] < b[1])
              || (a[0] == b[0] && a[1] == b[1] && a[2] < b[2])
              || (a[0] == b[0] && a[1] == b[1] && a[2] == b[2] && a[3] <= b[3])
  {
    assert a[3..][1..] == [] && b[3..][1..] == [];
    assert KeyLe(a[3..], b[3..]) <==> a[3] <= b[3];
    assert a[2..][1..] == a[3..] && b[2..][1..] == b[3..];
    assert KeyLe(a[2..], b[2..]) <==> a[2] < b[2] || (a[2] == b[2] && KeyLe(a[3..], b[3..]));
    assert a[1..][1..] == a[2..] && b[1..][1..] == b[2..];
    assert KeyLe(a[1..], b[1..]) <==> a[1] < b[1] || (a[1] == b[1] && KeyLe(a[2..], b[2..]));
    assert KeyLe(a, b) <==> a[0] < b[0] || (a[0] == b[0] && KeyLe(a[1..], b[1..]));
  }

  lemma AscendingKeyMeaning(a: Expense, b: Expense)
    ensures KeyLe(DateIdAscending(a), DateIdAscending(b))
            <==> DateLt(a.date, b.date) || (a.date == b.date && a.id <= b.id)
  {
    KeyLeFourColumns(DateIdAscending(a), DateIdAscending(b));
  }

  lemma DescendingKeyMeaning(a: Expense, b: Expense)
    ensures KeyLe(DateIdDescending(a), DateIdDescending(b))
            <==> DateLt(b.date, a.date) || (a.date == b.date && b.id <= a.id)
  {
    KeyLeFourColumns(DateIdDescending(a), DateIdDescending(b));
  }

  /** A list sorted by (date, id) ascending, spelled out on dates and ids. */
  lemma SortedAscendingMeaning(s: seq<Expense>)
    requires SortedBy(s, DateIdAscending)
    ensures forall i, j :: 0 <= i < j < |s| ==>
              DateLe(s[i].date, s[j].date) && (s[i].date == s[j].date ==> s[i].id <= s[j].id)
  {
    forall i, j | 0 <= i < j < |s|
      ensures DateLe(s[i].date, s[j].date) && (s[i].date == s[j].date ==> s[i].id <= s[j].id)
    {
      AscendingKeyMeaning(s[i], s[j]);
      DateOrderIsStrictTotal(s[i].date, s[j].date, s[i].date);
    }
  }

  /** A list sorted by (date, id) descending, spelled out on dates and ids. */
  lemma SortedDescendingMeaning(s: seq<Expense>)
    requires SortedBy(s, DateIdDescending)
    ensures forall i, j :: 0 <= i < j < |s| ==>
              DateLe(s[j].date, s[i].date) && (s[i].date == s[j].date ==> s[j].id <= s[i].id)
  {
    forall i, j | 0 <= i < j < |s|
      ensures DateLe(s[j].date, s[i].date) && (s[i].date == s[j].date ==> s[j].id <= s[i].id)
    {
      DescendingKeyMeaning(s[i], s[j]);
      DateOrderIsStrictTotal(s[i].date, s[j].date, s[i].date);
    }
  }
}
