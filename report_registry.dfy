/**
 * The canned reports over the events table: filters of the 'registered'
 * rows by state, profile and date, the user audit trail, the paginated
 * listing of all registrations and the guarded raw query. Each report is
 * a filter over the table, newest first. `sanitize_text_field` and the
 * database's execution of a raw query are parameters.
 */
module ReportRegistry {
  import opened Php
  import opened Events

  /** The rows of the 'registered' event (`event = 'registered'`, compared under the table's collation). */
  function Registered(): EventRow -> bool
  {
    OfEvent("registered")
  }

  /** `byState`: the registrations of the sanitised state, newest first. */
  function ByState(rows: seq<EventRow>, sanitize: string -> string, estado: string): (r: seq<EventRow>)
    ensures forall x :: x in r <==> x in rows && Collates(x.event, "registered") && Collates(x.estado, sanitize(estado))
    ensures IdsIncreasing(rows) ==> NewestFirst(r)
  {
    var keep := (row: EventRow) => Collates(row.estado, sanitize(estado)) && Collates(row.event, "registered");
    MatchingOrdered(rows, keep);
    Matching(rows, keep)
  }

  /** `byProfile`: the registrations of the sanitised profile, newest first. */
  function ByProfile(rows: seq<EventRow>, sanitize: string -> string, perfil: string): (r: seq<EventRow>)
    ensures forall x :: x in r <==> x in rows && Collates(x.event, "registered") && Collates(x.perfil, sanitize(perfil))
    ensures IdsIncreasing(rows) ==> NewestFirst(r)
  {
    var keep := (row: EventRow) => Collates(row.perfil, sanitize(perfil)) && Collates(row.event, "registered");
    MatchingOrdered(rows, keep);
    Matching(rows, keep)
  }

  /** `byStateAndProfile`: the registrations of the sanitised state and profile, newest first. */
  function ByStateAndProfile(rows: seq<EventRow>, sanitize: string -> string, estado: string, perfil: string): (r: seq<EventRow>)
    ensures forall x :: x in r <==> x in rows && Collates(x.event, "registered") && Collates(x.estado, sanitize(estado)) && Collates(x.perfil, sanitize(perfil))
    ensures IdsIncreasing(rows) ==> NewestFirst(r)
  {
    var keep := (row: EventRow) => Collates(row.estado, sanitize(estado)) && Collates(row.perfil, sanitize(perfil)) && Collates(row.event, "registered");
    MatchingOrdered(rows, keep);
    Matching(rows, keep)
  }

  /** The state-and-profile report holds exactly the rows both single-filter reports hold. */
  lemma StateAndProfileIsIntersection(rows: seq<EventRow>, sanitize: string -> string, estado: string, perfil: string)
    ensures forall x :: (x in ByStateAndProfile(rows, sanitize, estado, perfil)
                         <==> x in ByState(rows, sanitize, estado) && x in ByProfile(rows, sanitize, perfil))
  {
  }

  /** Lexicographic order on the text of a datetime, as MySQL compares well-formed datetimes. */
  predicate TextLe(a: string, b: string)
  {
    a == [] || (b != [] && (a[0] < b[0] || (a[0] == b[0] && TextLe(a[1..], b[1..]))))
  }

  /** The lower bound of a date range: the start of the start day. */
  function DayStart(date: string): string
  {
    date + " 00:00:00"
  }

  /** The upper bound of a date range: the last second of the end day. */
  function DayEnd(date: string): string
  {
    date + " 23:59:59"
  }

  predicate InRange(createdAt: string, startDate: string, endDate: string)
  {
    TextLe(DayStart(startDate), createdAt) && TextLe(createdAt, DayEnd(endDate))
  }

  /** `byDateRange`: the registrations created between the start of the start day and the end of the end day. */
  function ByDateRange(rows: seq<EventRow>, sanitize: string -> string, startDate: string, endDate: string): (r: seq<EventRow>)
    ensures forall x :: x in r <==> x in rows && Collates(x.event, "registered") && InRange(x.createdAt, sanitize(startDate), sanitize(endDate))
    ensures IdsIncreasing(rows) ==> NewestFirst(r)
  {
    var keep := (row: EventRow) => Collates(row.event, "registered") && InRange(row.createdAt, sanitize(startDate), sanitize(endDate));
    MatchingOrdered(rows, keep);
    Matching(rows, keep)
  }

  /** `byStateAndDate`: the date-range report restricted to one state. */
  function ByStateAndDate(rows: seq<EventRow>, sanitize: string -> string, estado: string, startDate: string, endDate: string)
    : (r: seq<EventRow>)
    ensures forall x :: x in r <==> x in ByDateRange(rows, sanitize, startDate, endDate) && Collates(x.estado, sanitize(estado))
    ensures IdsIncreasing(rows) ==> NewestFirst(r)
  {
    var keep := (row: EventRow) => Collates(row.estado, sanitize(estado)) && Collates(row.event, "registered")
                                   && InRange(row.createdAt, sanitize(startDate), sanitize(endDate));
    MatchingOrdered(rows, keep);
    Matching(rows, keep)
  }

  /** A time of day `HH:MM:SS` with hours up to 23 and minutes and seconds up to 59. */
  predicate WellFormedTime(t: string)
  {
    |t| == 8 && t[2] == ':' && t[5] == ':'
    && '0' <= t[0] <= '2' && '0' <= t[1] <= '9' && (t[0] < '2' || t[1] <= '3')
    && '0' <= t[3] <= '5' && '0' <= t[4] <= '9'
    && '0' <= t[6] <= '5' && '0' <= t[7] <= '9'
  }

  lemma {:induction false} TextLeCommonPrefix(p: string, a: string, b: string)
    ensures TextLe(p + a, p + b) <==> TextLe(a, b)
  {
    if p != [] {
      assert (p + a)[0] == (p + b)[0] == p[0];
      assert (p + a)[1..] == p[1..] + a;
      assert (p + b)[1..] == p[1..] + b;
      assert TextLe(p + a, p + b) == TextLe(p[1..] + a, p[1..] + b);
      TextLeCommonPrefix(p[1..], a, b);
    } else {
      assert p + a == a && p + b == b;
    }
  }

  /** Text that is character by character no greater is no greater in lexicographic order. */
  lemma {:induction false} PointwiseTextLe(a: string, b: string)
    requires |a| == |b| && forall i :: 0 <= i < |a| ==> a[i] <= b[i]
    ensures TextLe(a, b)
  {
    if a != [] && a[0] == b[0] {
      PointwiseTextLe(a[1..], b[1..]);
    }
  }

  /**
   * The bounds are widened to whole days: a registration at any valid time
   * of the start day or of the end day falls inside the range.
   */
  lemma WholeDaysIncluded(day: string, time: string)
    requires WellFormedTime(time)
    ensures TextLe(DayStart(day), day + " " + time)
    ensures TextLe(day + " " + time, DayEnd(day))
  {
    assert DayStart(day) == day + (" " + "00:00:00");
    assert DayEnd(day) == day + (" " + "23:59:59");
    assert day + " " + time == day + (" " + time);
    TextLeCommonPrefix(day, " " + "00:00:00", " " + time);
    TextLeCommonPrefix(day, " " + time, " " + "23:59:59");
    PointwiseTextLe(" " + "00:00:00", " " + time);
    var t := " " + time;
    var u := " " + "23:59:59";
    if time[0] < '2' {
      assert t[1..][0] < u[1..][0];
    } else {
      PointwiseTextLe(t, u);
    }
  }

  /** `userAuditTrail`: every event of the user `absint($userId)`, newest first. */
  function UserAuditTrail(rows: seq<EventRow>, userId: int): (r: seq<EventRow>)
    ensures IdsIncreasing(rows) ==> NewestFirstMatches(r, rows, ForUser(AbsInt(userId)))
  {
    MatchingOrdered(rows, ForUser(AbsInt(userId)));
    Matching(rows, ForUser(AbsInt(userId)))
  }

  /** `validationErrorStats`: the number of 'validation_error' rows. */
  function ValidationErrorTotal(rows: seq<EventRow>): nat
  {
    |Matching(rows, OfEvent("validation_error"))|
  }

  /** Appending a row extends every newest-first report at its head when the row matches, and not at all otherwise. */
  lemma MatchingAppend(rows: seq<EventRow>, row: EventRow, keep: EventRow -> bool)
    ensures Matching(rows + [row], keep) == (if keep(row) then [row] else []) + Matching(rows, keep)
  {
    assert (rows + [row])[..|rows + [row]| - 1] == rows;
  }

  /** Recording a validation error raises the statistics total by one; any other event leaves it. */
  lemma ValidationErrorCounted(rows: seq<EventRow>, row: EventRow)
    ensures ValidationErrorTotal(rows + [row]) == ValidationErrorTotal(rows) + if Collates(row.event, "validation_error") then 1 else 0
  {
    MatchingAppend(rows, row, OfEvent("validation_error"));
  }

  /** The array `getAllRegistrations` returns; `data` is absent when the query fails on a negative offset. */
  datatype RegistrationsPage = RegistrationsPage(data: Option<seq<EventRow>>, total: int, page: nat, perPage: nat,
                                                 totalPages: int)

  /** The rows of one page of a listing: `LIMIT perPage OFFSET offset`. */
  function PageRows(all: seq<EventRow>, offset: nat, perPage: nat): (r: seq<EventRow>)
    ensures |r| <= perPage
    ensures offset < |all| ==> r == all[offset..if offset + perPage < |all| then offset + perPage else |all|]
    ensures offset >= |all| ==> r == []
    ensures forall x :: x in r ==> x in all
  {
    if offset >= |all| then []
    else if offset + perPage < |all| then all[offset..offset + perPage]
    else all[offset..]
  }

  /** Integer ceiling division, as `ceil($total / $perPage)` computes it for a non-negative total. */
  function CeilDiv(n: nat, d: nat): (q: nat)
    requires d > 0
    ensures q * d >= n && (q == 0 || (q - 1) * d < n)
  {
    (n + d - 1) / d
  }

  /** The offset of a page: `($page - 1) * $perPage`, negative for page 0. */
  function PageOffset(page: nat, perPage: nat): int
  {
    (page - 1) * perPage
  }

  /**
   * `getAllRegistrations`: `absint` of page and page size, the rows of
   * that page, the total of registrations and the page count. With a page
   * size of 0 the division throws (`None`); page 0 asks for a negative
   * offset and the query fails.
   */
  function GetAllRegistrations(rows: seq<EventRow>, page: int, perPage: int): (r: Option<RegistrationsPage>)
    ensures r.None? <==> perPage == 0
    ensures r.Some? ==> r.value.page == AbsInt(page) && r.value.perPage == AbsInt(perPage)
    ensures r.Some? ==> r.value.total == |Matching(rows, Registered())|
    ensures r.Some? ==> (r.value.totalPages * AbsInt(perPage) >= r.value.total
                         && (r.value.totalPages == 0 || (r.value.totalPages - 1) * AbsInt(perPage) < r.value.total))
    ensures r.Some? ==> (r.value.data.Some? <==> AbsInt(page) >= 1)
    ensures r.Some? && r.value.data.Some? ==>
      |r.value.data.value| <= AbsInt(perPage)
      && forall x :: x in r.value.data.value ==> x in rows && Collates(x.event, "registered")
  {
    var p := AbsInt(page);
    var k := AbsInt(perPage);
    var all := Matching(rows, Registered());
    if k == 0 then None
    else
      RegisteredRowsCollate(rows);
      Some(RegistrationsPage(PageData(all, p, k), |all|, p, k, CeilDiv(|all|, k)))
  }

  /** Every registration row is a row of the table whose event collates with 'registered'. */
  lemma RegisteredRowsCollate(rows: seq<EventRow>)
    ensures forall x :: x in Matching(rows, Registered()) ==> x in rows && Collates(x.event, "registered")
  {
  }

  /** The rows of page `p`, or nothing when the offset of page 0 is negative. */
  function PageData(all: seq<EventRow>, p: nat, k: nat): (data: Option<seq<EventRow>>)
    requires k > 0
    ensures data.Some? <==> p >= 1
    ensures data.Some? ==> |data.value| <= k && forall x :: x in data.value ==> x in all
  {
    var offset := PageOffset(p, k);
    assert p >= 1 ==> offset >= 0 by {
      if p >= 1 { assert (p - 1) * k >= 0; }
    }
    if offset < 0 then None else Some(PageRows(all, offset, k))
  }

  /** Pages 1 to `p` of a listing, one after the other. */
  function FirstPages(all: seq<EventRow>, perPage: nat, p: nat): seq<EventRow>
  {
    if p == 0 then [] else FirstPages(all, perPage, p - 1) + PageRows(all, PageOffset(p, perPage), perPage)
  }

  lemma {:induction false} FirstPagesArePrefix(all: seq<EventRow>, perPage: nat, p: nat)
    ensures FirstPages(all, perPage, p) == all[..if p * perPage < |all| then p * perPage else |all|]
  {
    if p > 0 {
      FirstPagesArePrefix(all, perPage, p - 1);
      var q := (p - 1) * perPage;
      assert p * perPage == q + perPage;
      assert PageOffset(p, perPage) == q;
      if q < |all| {
        var after := if q + perPage < |all| then q + perPage else |all|;
        assert PageRows(all, q, perPage) == all[q..after];
        assert all[..after] == all[..q] + all[q..after];
      } else {
        assert PageRows(all, q, perPage) == [];
      }
    }
  }

  /** Page `page` (from 1) of `getAllRegistrations` holds the rows at that page's offset of the newest-first listing. */
  lemma RegistrationsPageRows(rows: seq<EventRow>, page: int, perPage: int)
    requires perPage != 0 && page != 0
    ensures GetAllRegistrations(rows, page, perPage).value.data
      == Some(PageRows(Matching(rows, Registered()), PageOffset(AbsInt(page), AbsInt(perPage)), AbsInt(perPage)))
  {
    assert PageOffset(AbsInt(page), AbsInt(perPage)) >= 0 by {
      assert (AbsInt(page) - 1) * AbsInt(perPage) >= 0;
    }
  }

  /** Reading pages 1 to `total_pages` in turn lists every row exactly once, in order. */
  lemma PagesCoverListing(all: seq<EventRow>, perPage: nat)
    requires perPage > 0
    ensures FirstPages(all, perPage, CeilDiv(|all|, perPage)) == all
  {
    var n := CeilDiv(|all|, perPage);
    FirstPagesArePrefix(all, perPage, n);
    assert all[..|all|] == all;
  }

  /** Any page after `total_pages` is empty. */
  lemma PagesAfterLastEmpty(all: seq<EventRow>, perPage: nat, later: nat)
    requires perPage > 0 && later > CeilDiv(|all|, perPage)
    ensures PageRows(all, PageOffset(later, perPage), perPage) == []
  {
    var n := CeilDiv(|all|, perPage);
    assert PageOffset(later, perPage) >= n * perPage by {
      MultiplyMonotone(n, later - 1, perPage);
    }
  }

  lemma MultiplyMonotone(a: nat, b: nat, c: nat)
    requires a <= b
    ensures a * c <= b * c
  {
  }

  /** `raw`: the query runs exactly when the trimmed SQL begins with the word SELECT in some letter case. */
  function Raw(sql: string, run: string -> seq<Value>): (r: seq<Value>)
    ensures r != [] ==> |Trim(sql)| >= 6 && ToLower(Trim(sql)[..6]) == "select"
    ensures |Trim(sql)| >= 6 && ToLower(Trim(sql)[..6]) == "select" ==> r == run(sql)
  {
    SelectPrefixIgnoresCase(Trim(sql));
    if !StartsWith(ToUpper(Trim(sql)), "SELECT") then [] else run(sql)
  }

  /** Upper-casing the text yields a SELECT prefix exactly when lower-casing its first six characters yields "select". */
  lemma SelectPrefixIgnoresCase(t: string)
    ensures StartsWith(ToUpper(t), "SELECT") <==> |t| >= 6 && ToLower(t[..6]) == "select"
  {
    if StartsWith(ToUpper(t), "SELECT") {
      forall i | 0 <= i < 6
        ensures LowerChar(t[i]) == "select"[i]
      {
        assert UpperChar(t[i]) == "SELECT"[i];
      }
      assert ToLower(t[..6]) == "select";
    }
    if |t| >= 6 && ToLower(t[..6]) == "select" {
      forall i | 0 <= i < 6
        ensures UpperChar(t[i]) == "SELECT"[i]
      {
        assert LowerChar(t[..6][i]) == "select"[i];
      }
      assert ToUpper(t)[..6] == "SELECT";
    }
  }
}
