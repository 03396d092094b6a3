/**
 * The due-set query of GET /api/cards/review: keep the cards whose last review
 * plus their interval has been reached, order them by last review, oldest
 * first, and return at most ten. Dates are whole day numbers.
 */
module DueSet {
  import opened Wrappers
  import opened Sm2

  /** A snapshot of one row of the cards table. */
  datatype CardRow = CardRow(id: int, front: string, back: string, schedule: Schedule, lastReviewed: Option<int>)

  /** The LIMIT of the query. */
  const Limit: nat := 10

  /**
   * The WHERE clause, last_reviewed <= today - interval_days. A row whose
   * last_reviewed is NULL fails the comparison, so a never-reviewed card is
   * not due.
   */
  predicate IsDue(r: CardRow, today: int) {
    r.lastReviewed.Some? && r.lastReviewed.value + r.schedule.intervalDays <= today
  }

  /** The sort key: the day of the last review (only consulted on due rows, which all have one). */
  function Day(r: CardRow): int {
    if r.lastReviewed.Some? then r.lastReviewed.value else 0
  }

  /** Ordered by last review, oldest first; ties in any order. */
  predicate Sorted(s: seq<CardRow>) {
    forall i, j :: 0 <= i < j < |s| ==> Day(s[i]) <= Day(s[j])
  }

  /** The rows that pass the WHERE clause, in table order. */
  function Due(rows: seq<CardRow>, today: int): (d: seq<CardRow>)
    ensures forall r :: multiset(d)[r] == if IsDue(r, today) then multiset(rows)[r] else 0
    ensures forall r :: r in d ==> r in rows && IsDue(r, today)
    ensures |d| <= |rows|
  {
    if rows == [] then []
    else
      assert rows == [rows[0]] + rows[1..];
      (if IsDue(rows[0], today) then [rows[0]] else []) + Due(rows[1..], today)
  }

  /** Places x into a sorted sequence. */
  function Insert(x: CardRow, s: seq<CardRow>): (t: seq<CardRow>)
    requires Sorted(s)
    ensures Sorted(t)
    ensures forall y :: y in t ==> y in s || y == x
    ensures multiset(t) == multiset(s) + multiset{x}
    ensures |t| == |s| + 1
  {
    if s == [] then [x]
    else if Day(x) <= Day(s[0]) then [x] + s
    else
      var rest := Insert(x, s[1..]);
      assert forall i :: 0 <= i < |rest| ==> Day(s[0]) <= Day(rest[i]) by {
        forall i | 0 <= i < |rest| ensures Day(s[0]) <= Day(rest[i]) {
          assert rest[i] in rest;
        }
      }
      assert s == [s[0]] + s[1..];
      [s[0]] + rest
  }

  /** The ORDER BY: one admissible ordering of the rows by last review. */
  function SortByDay(s: seq<CardRow>): (t: seq<CardRow>)
    ensures Sorted(t)
    ensures multiset(t) == multiset(s)
    ensures |t| == |s| && forall y :: y in t ==> y in s
  {
    if s == [] then []
    else
      assert s == [s[0]] + s[1..];
      Insert(s[0], SortByDay(s[1..]))
  }

  /**
   * The whole query. Every returned row is due and comes from the table, the
   * result is ordered by last review, and it holds the ten due rows reviewed
   * longest ago, or all of them when there are fewer.
   */
  function SelectDue(rows: seq<CardRow>, today: int): (r: seq<CardRow>)
    ensures Sorted(r)
    ensures forall x :: x in r ==> IsDue(x, today) && x in rows
    ensures multiset(r) <= multiset(rows)
    ensures |r| == if |Due(rows, today)| < Limit then |Due(rows, today)| else Limit
  {
    var due := Due(rows, today);
    var sorted := SortByDay(due);
    var r := if |sorted| <= Limit then sorted else sorted[..Limit];
    PrefixOf(sorted, |r|);
    assert multiset(due) <= multiset(rows);
    r
  }

  /** A prefix of a sequence is ordered when the sequence is, and is contained in it. */
  lemma PrefixOf(s: seq<CardRow>, k: nat)
    requires k <= |s|
    ensures Sorted(s) ==> Sorted(s[..k])
    ensures forall x :: x in s[..k] ==> x in s
    ensures multiset(s[..k]) <= multiset(s)
  {
    assert s == s[..k] + s[k..];
  }

  /**
   * The limit keeps the oldest: a due row is cut off only when ten rows are
   * returned, and a cut-off row was reviewed no earlier than any returned one.
   */
  lemma SelectDueKeepsOldest(rows: seq<CardRow>, today: int, x: CardRow, y: CardRow)
    requires multiset(Due(rows, today))[x] > multiset(SelectDue(rows, today))[x]
    requires y in SelectDue(rows, today)
    ensures |SelectDue(rows, today)| == Limit
    ensures Day(y) <= Day(x)
  {
    var sorted := SortByDay(Due(rows, today));
    var k := if |sorted| <= Limit then |sorted| else Limit;
    assert SelectDue(rows, today) == sorted[..k];
    CutOffNoEarlier(sorted, k, x, y);
  }

  /** In an ordered sequence, an element beyond a prefix is no earlier than any element of it. */
  lemma CutOffNoEarlier(s: seq<CardRow>, k: nat, x: CardRow, y: CardRow)
    requires Sorted(s) && k <= |s|
    requires multiset(s)[x] > multiset(s[..k])[x]
    requires y in s[..k]
    ensures k < |s| && Day(y) <= Day(x)
  {
    SplitSorted(s, k);
    assert x in s[k..];
    var j :| 0 <= j < |s| - k && s[k..][j] == x;
    var i :| 0 <= i < k && s[..k][i] == y;
  }

  /** Cutting an ordered sequence in two keeps every element and puts the earlier days in front. */
  lemma SplitSorted(s: seq<CardRow>, k: nat)
    requires Sorted(s) && k <= |s|
    ensures multiset(s[..k]) + multiset(s[k..]) == multiset(s)
    ensures forall i, j :: 0 <= i < k && 0 <= j < |s| - k ==> Day(s[..k][i]) <= Day(s[k..][j])
  {
    assert s == s[..k] + s[k..];
    forall i, j | 0 <= i < k && 0 <= j < |s| - k
      ensures Day(s[..k][i]) <= Day(s[k..][j])
    {
      assert s[..k][i] == s[i] && s[k..][j] == s[k + j];
    }
  }

  /** As the query is written, a card that was never reviewed is never returned. */
  lemma NeverReviewedNeverSelected(rows: seq<CardRow>, today: int, r: CardRow)
    requires r.lastReviewed.None?
    ensures r !in SelectDue(rows, today)
  {
  }

  /**
   * Three cards on day 100: one never reviewed, one reviewed on day 95 with a
   * three-day interval, one reviewed on day 99 with a ten-day interval. Only the
   * second is returned.
   */
  lemma DueExample()
    ensures SelectDue(ExampleRows(), 100) == [ExampleRows()[1]]
  {
    var rows := ExampleRows();
    var overdue := rows[1];
    assert Due(rows, 100) == [overdue] by {
      assert rows[1..] == [overdue, rows[2]];
      assert [overdue, rows[2]][1..] == [rows[2]];
      assert [rows[2]][1..] == [];
    }
    assert SortByDay([overdue]) == [overdue] by {
      assert [overdue][1..] == [];
    }
  }

  function ExampleRows(): seq<CardRow> {
    [ CardRow(1, "a", "b", Schedule(0, 2.5, 0), None),
      CardRow(2, "c", "d", Schedule(1, 2.5, 3), Some(95)),
      CardRow(3, "e", "f", Schedule(2, 2.5, 10), Some(99)) ]
  }
}
