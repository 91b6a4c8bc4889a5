/**
 GET /api/expenses/userExpenses: the caller's expenses, filtered by an
 optional month/year window and tag, newest first, at most 50.

 Query parameters are modelled as already parsed: `None` stands for a
 parameter that is absent or empty (both falsy in the handler).
 */
module Listing {
  import opened Common
  import opened Calendar
  import opened Split
  import opened Store

  datatype Query = Query(month: Option<int>, year: Option<int>, tag: Option<string>)

  /** A filter on `createdAt`. `Closed` is the handler's `{gte, lte}`;
      `HalfOpen` excludes its end and is used by the corrected window. */
  datatype DateFilter = NoDateFilter | Closed(start: Instant, end: Instant) | HalfOpen(start: Instant, end: Instant)

  predicate InDateFilter(t: Instant, f: DateFilter)
  {
    match f
    case NoDateFilter => true
    case Closed(s, e) => NotAfter(s, t) && NotAfter(t, e)
    case HalfOpen(s, e) => NotAfter(s, t) && !NotAfter(e, t)
  }

  /** The window as the handler builds it: month and year give the 1st of the
      month to `new Date(year, month, 0)`, the month's last day at midnight;
      a year alone gives January 1 to December 31 at midnight; a month alone
      gives no window. */
  function DateWindow(q: Query): (f: DateFilter)
    ensures q.year.None? ==> f == NoDateFilter
    ensures q.year.Some? && q.month.Some? && 1 <= q.month.value <= 12 ==>
      var y, m := ConstructorYear(q.year.value), q.month.value;
      f == Closed(Instant(y, m, 1, 0), Instant(y, m, DaysInMonth(y, m), 0))
    ensures q.year.Some? && q.month.None? ==>
      var y := ConstructorYear(q.year.value);
      f == Closed(Instant(y, 1, 1, 0), Instant(y, 12, 31, 0))
  {
    if q.month.Some? && q.year.Some? then
      var f := Closed(MakeDate(q.year.value, q.month.value - 1, 1), MakeDate(q.year.value, q.month.value, 0));
      if 1 <= q.month.value <= 12 then MonthBounds(q.year.value, q.month.value); f else f
    else if q.year.Some? then
      YearBounds(q.year.value);
      Closed(MakeDate(q.year.value, 0, 1), MakeDate(q.year.value, 11, 31))
    else NoDateFilter
  }

  /** The corrected window: the whole month, or the whole year. */
  function IntendedWindow(q: Query): (f: DateFilter)
    ensures q.year.None? ==> f == NoDateFilter
    ensures q.year.Some? && q.month.Some? && 1 <= q.month.value <= 12 ==>
      var y, m := ConstructorYear(q.year.value), q.month.value;
      var next := NextMonth(y, m);
      f == HalfOpen(Instant(y, m, 1, 0), Instant(next.0, next.1, 1, 0))
    ensures q.year.Some? && q.month.None? ==>
      var y := ConstructorYear(q.year.value);
      f == HalfOpen(Instant(y, 1, 1, 0), Instant(y + 1, 1, 1, 0))
  {
    if q.month.Some? && q.year.Some? then
      HalfOpen(MakeDate(q.year.value, q.month.value - 1, 1), MakeDate(q.year.value, q.month.value, 1))
    else if q.year.Some? then
      HalfOpen(MakeDate(q.year.value, 0, 1), MakeDate(q.year.value, 12, 1))
    else NoDateFilter
  }

  /** The tag condition is added only for a given tag other than "All". */
  function TagFilter(q: Query): (r: Option<string>)
    ensures r.Some? <==> q.tag.Some? && q.tag.value != "" && q.tag.value != "All"
    ensures r.Some? ==> r == q.tag
  {
    if q.tag.Some? && q.tag.value != "" && q.tag.value != "All" then q.tag else None
  }

  /** `payers: {some: {userId}}`. */
  predicate HasPayer(ps: seq<Payer>, u: UserId)
  {
    exists i :: 0 <= i < |ps| && ps[i].userId == u
  }

  predicate Matches(e: Expense, u: UserId, tag: Option<string>, window: DateFilter)
  {
    && HasPayer(e.payers, u)
    && InDateFilter(e.createdAt, window)
    && (tag.Some? ==> e.tag == tag.value)
  }

  function Select(es: seq<Expense>, u: UserId, tag: Option<string>, window: DateFilter): (r: seq<Expense>)
    ensures forall x :: x in r <==> x in es && Matches(x, u, tag, window)
    ensures |r| <= |es|
  {
    if es == [] then []
    else (if Matches(es[0], u, tag, window) then [es[0]] else []) + Select(es[1..], u, tag, window)
  }

  /** `orderBy: {createdAt: "desc"}`. */
  ghost predicate NewestFirst(es: seq<Expense>)
  {
    forall i, j :: 0 <= i < j < |es| ==> NotAfter(es[j].createdAt, es[i].createdAt)
  }

  lemma NotAfterTransitive(a: Instant, b: Instant, c: Instant)
    requires NotAfter(a, b) && NotAfter(b, c)
    ensures NotAfter(a, c)
  {
  }

  function Insert(e: Expense, es: seq<Expense>): (r: seq<Expense>)
    requires NewestFirst(es)
    ensures NewestFirst(r)
    ensures multiset(r) == multiset(es) + multiset{e}
    ensures |r| == |es| + 1
  {
    if es == [] then [e]
    else if NotAfter(es[0].createdAt, e.createdAt) then
      InsertFront(e, es);
      [e] + es
    else
      var rest := Insert(e, es[1..]);
      InsertBehind(e, es, rest);
      assert es == [es[0]] + es[1..];
      [es[0]] + rest
  }

  lemma InsertFront(e: Expense, es: seq<Expense>)
    requires NewestFirst(es) && es != [] && NotAfter(es[0].createdAt, e.createdAt)
    ensures NewestFirst([e] + es)
  {
    var r := [e] + es;
    forall i, j | 0 <= i < j < |r|
      ensures NotAfter(r[j].createdAt, r[i].createdAt)
    {
      if i == 0 && j > 1 {
        NotAfterTransitive(es[j - 1].createdAt, es[0].createdAt, e.createdAt);
      }
    }
  }

  lemma InsertBehind(e: Expense, es: seq<Expense>, rest: seq<Expense>)
    requires NewestFirst(es) && es != [] && !NotAfter(es[0].createdAt, e.createdAt)
    requires NewestFirst(rest) && multiset(rest) == multiset(es[1..]) + multiset{e}
    ensures NewestFirst([es[0]] + rest)
  {
    var r := [es[0]] + rest;
    forall i, j | 0 <= i < j < |r|
      ensures NotAfter(r[j].createdAt, r[i].createdAt)
    {
      if i == 0 {
        var x := rest[j - 1];
        assert x in multiset(rest);
        if x != e {
          assert x in multiset(es[1..]);
          var k :| 0 <= k < |es[1..]| && es[1..][k] == x;
          assert es[k + 1] == x;
        } else {
          NotAfterTotal(e.createdAt, es[0].createdAt);
        }
      }
    }
  }

  /** Newest first; expenses with equal `createdAt` in an unspecified order. */
  function SortNewestFirst(es: seq<Expense>): (r: seq<Expense>)
    ensures NewestFirst(r)
    ensures multiset(r) == multiset(es)
    ensures |r| == |es|
  {
    if es == [] then []
    else
      assert es == [es[0]] + es[1..];
      Insert(es[0], SortNewestFirst(es[1..]))
  }

  /** `take: 50`. */
  const PageSize: nat := 50

  /** `r` is the first page of `matching` in `createdAt` order: newest
      first, as many entries as match up to 50, all of the matches when
      there are at most 50, and no match left off newer than one on it. */
  ghost predicate IsNewestPage(r: seq<Expense>, matching: seq<Expense>)
  {
    && NewestFirst(r)
    && |r| == (if |matching| <= PageSize then |matching| else PageSize)
    && multiset(r) <= multiset(matching)
    && (|matching| <= PageSize ==> multiset(r) == multiset(matching))
    && forall x: Expense, y: Expense :: x in multiset(matching) - multiset(r) && y in r ==> NotAfter(x.createdAt, y.createdAt)
  }

  /** `findMany({where, orderBy: {createdAt: "desc"}, take: 50})`. */
  function Page(es: seq<Expense>, u: UserId, tag: Option<string>, window: DateFilter): (r: seq<Expense>)
    ensures IsNewestPage(r, Select(es, u, tag, window))
    ensures forall x :: x in r ==> x in es && Matches(x, u, tag, window)
  {
    var matching := Select(es, u, tag, window);
    PageIsNewestMatches(matching);
    var sorted := SortNewestFirst(matching);
    if |sorted| <= PageSize then sorted else sorted[..PageSize]
  }

  /** GET /api/expenses/userExpenses, as written. The list is the newest
      page of the caller's matching expenses: every listed expense is a
      stored one that names the caller among its payers and passes the tag
      and date conditions, and it is newest first and at most 50 long. */
  function ListExpenses(st: State, caller: Option<UserId>, q: Query): (r: ReadReply<seq<Expense>>)
    ensures caller.None? ==> r == ReadReply(Unauthorized, None)
    ensures caller.Some? ==>
      && r.status == Ok
      && r.data.Some?
      && IsNewestPage(r.data.value, Select(st.expenses, caller.value, TagFilter(q), DateWindow(q)))
      && forall x :: x in r.data.value ==>
           && x in st.expenses
           && HasPayer(x.payers, caller.value)
           && InDateFilter(x.createdAt, DateWindow(q))
           && (TagFilter(q).Some? ==> x.tag == TagFilter(q).value)
  {
    if caller.None? then ReadReply(Unauthorized, None)
    else
      ReadReply(Ok, Some(Page(st.expenses, caller.value, TagFilter(q), DateWindow(q))))
  }

  /** The same listing with the corrected (whole-month, whole-year) window. */
  function ListExpensesIntended(st: State, caller: Option<UserId>, q: Query): (r: ReadReply<seq<Expense>>)
    ensures caller.None? ==> r == ReadReply(Unauthorized, None)
    ensures caller.Some? ==>
      && r.status == Ok
      && r.data.Some?
      && IsNewestPage(r.data.value, Select(st.expenses, caller.value, TagFilter(q), IntendedWindow(q)))
      && forall x :: x in r.data.value ==>
           && x in st.expenses
           && HasPayer(x.payers, caller.value)
           && InDateFilter(x.createdAt, IntendedWindow(q))
           && (TagFilter(q).Some? ==> x.tag == TagFilter(q).value)
  {
    if caller.None? then ReadReply(Unauthorized, None)
    else
      ReadReply(Ok, Some(Page(st.expenses, caller.value, TagFilter(q), IntendedWindow(q))))
  }

  /** A prefix of a newest-first list is newest first, and everything after
      it is no newer than anything in it. */
  lemma PrefixIsNewest(sorted: seq<Expense>, k: nat)
    requires NewestFirst(sorted) && k <= |sorted|
    ensures NewestFirst(sorted[..k])
    ensures multiset(sorted) == multiset(sorted[..k]) + multiset(sorted[k..])
    ensures forall x: Expense, y: Expense :: x in multiset(sorted) - multiset(sorted[..k]) && y in sorted[..k] ==>
      NotAfter(x.createdAt, y.createdAt)
  {
    var r := sorted[..k];
    var rest := sorted[k..];
    assert sorted == r + rest;
    assert multiset(sorted) - multiset(r) == multiset(rest);
    PrefixSorted(sorted, k);
    RestNotNewer(sorted, k);
  }

  lemma PrefixSorted(sorted: seq<Expense>, k: nat)
    requires NewestFirst(sorted) && k <= |sorted|
    ensures NewestFirst(sorted[..k])
  {
    forall i, j | 0 <= i < j < k
      ensures NotAfter(sorted[..k][j].createdAt, sorted[..k][i].createdAt)
    {
      assert sorted[..k][i] == sorted[i] && sorted[..k][j] == sorted[j];
    }
  }

  lemma RestNotNewer(sorted: seq<Expense>, k: nat)
    requires NewestFirst(sorted) && k <= |sorted|
    ensures forall x: Expense, y: Expense :: x in sorted[k..] && y in sorted[..k] ==> NotAfter(x.createdAt, y.createdAt)
  {
    forall x: Expense, y: Expense | x in sorted[k..] && y in sorted[..k]
      ensures NotAfter(x.createdAt, y.createdAt)
    {
      var j :| 0 <= j < |sorted[k..]| && sorted[k..][j] == x;
      var i :| 0 <= i < k && sorted[..k][i] == y;
      assert sorted[k + j] == x && sorted[i] == y;
    }
  }

  /** Sorting the matches newest first and keeping the first 50 gives the
      newest page of the matches, and nothing that is not a match. */
  lemma PageIsNewestMatches(matching: seq<Expense>)
    ensures var sorted := SortNewestFirst(matching);
      var r := if |sorted| <= PageSize then sorted else sorted[..PageSize];
      && IsNewestPage(r, matching)
      && forall x :: x in r ==> x in matching
  {
    var sorted := SortNewestFirst(matching);
    var k := if |sorted| <= PageSize then |sorted| else PageSize;
    var r := sorted[..k];
    assert sorted[..|sorted|] == sorted;
    PrefixIsNewest(sorted, k);
    forall x | x in r
      ensures x in matching
    {
      assert x in multiset(sorted);
    }
  }

  /** With both month (1..12) and year, the handler's window keeps a valid
      instant exactly when it falls in that month and is not later than
      midnight at the start of the month's last day. */
  lemma MonthWindowAsWritten(t: Instant, m: int, y: int, tag: Option<string>)
    requires Valid(t) && 1 <= m <= 12
    ensures var year := ConstructorYear(y);
      InDateFilter(t, DateWindow(Query(Some(m), Some(y), tag))) <==>
        t.year == year && t.month == m && (t.day < DaysInMonth(year, m) || t.millis == 0)
  {
    MonthBounds(y, m);
  }

  /** So an expense made at noon on January 31 is missing from the January
      listing. */
  lemma MonthWindowMissesLastDay()
    ensures !InDateFilter(Instant(2025, 1, 31, 43200000), DateWindow(Query(Some(1), Some(2025), None)))
    ensures Valid(Instant(2025, 1, 31, 43200000))
  {
    MonthWindowAsWritten(Instant(2025, 1, 31, 43200000), 1, 2025, None);
  }

  /** With a year alone the handler's window keeps a valid instant exactly
      when it falls in that year and is not later than midnight at the start
      of December 31. */
  lemma YearWindowAsWritten(t: Instant, y: int, tag: Option<string>)
    requires Valid(t)
    ensures InDateFilter(t, DateWindow(Query(None, Some(y), tag))) <==>
      t.year == ConstructorYear(y) && (t.month < 12 || t.day < 31 || t.millis == 0)
  {
    YearBounds(y);
  }

  /** A month without a year filters nothing by date. */
  lemma MonthAloneIsNoWindow(m: int, tag: Option<string>)
    ensures DateWindow(Query(Some(m), None, tag)) == NoDateFilter
  {
  }

  /** The corrected window keeps a valid instant exactly when it falls in the
      requested month (or year). */
  lemma IntendedWindowIsWholePeriod(t: Instant, m: int, y: int, tag: Option<string>)
    requires Valid(t) && 1 <= m <= 12
    ensures var year := ConstructorYear(y);
      && (InDateFilter(t, IntendedWindow(Query(Some(m), Some(y), tag))) <==> t.year == year && t.month == m)
      && (InDateFilter(t, IntendedWindow(Query(None, Some(y), tag))) <==> t.year == year)
  {
  }
}
