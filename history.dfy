/**
 * The history page: a zero-based page counter moved by Previous and Next,
 * the block of rows each page requests, when the two buttons are
 * disabled, and the address a click on a snapshot navigates to.
 */
module History {
  import opened JsString
  import CaptureGuards

  const ItemsPerPage: nat := 20

  // ---------------------------------------------------------------------
  // Requested rows
  // ---------------------------------------------------------------------

  /** The inclusive bounds handed to `.range(from, to)`. */
  datatype RowRange = RowRange(first: int, last: int)

  function PageRange(page: int): (r: RowRange)
    ensures r.first == ItemsPerPage * page && r.last == ItemsPerPage * page + ItemsPerPage - 1
    ensures r.last - r.first + 1 == ItemsPerPage
  {
    RowRange(page * ItemsPerPage, (page + 1) * ItemsPerPage - 1)
  }

  predicate InRange(r: RowRange, row: int) {
    r.first <= row <= r.last
  }

  /** Consecutive pages request adjacent blocks that share no row. */
  lemma ConsecutivePagesAdjacent(page: nat)
    ensures PageRange(page + 1).first == PageRange(page).last + 1
    ensures forall row :: !(InRange(PageRange(page), row) && InRange(PageRange(page + 1), row))
  {
  }

  /** Every row of the ordered table lies on exactly one page: the one its index divided by 20 names. */
  lemma {:induction false} RowOnExactlyOnePage(row: nat, page: nat)
    ensures InRange(PageRange(page), row) <==> page == row / ItemsPerPage
  {
    var q, m := row / ItemsPerPage, row % ItemsPerPage;
    assert row == ItemsPerPage * q + m && 0 <= m < ItemsPerPage;
    if page < q {
      assert ItemsPerPage * page + ItemsPerPage <= ItemsPerPage * q;
    } else if page > q {
      assert ItemsPerPage * q + ItemsPerPage <= ItemsPerPage * page;
    }
  }

  /** Page p's range holds exactly the rows n with n div 20 = p. */
  lemma PageHoldsItsRows(page: nat)
    ensures forall n: nat :: InRange(PageRange(page), n) <==> n / ItemsPerPage == page
  {
    forall n: nat ensures InRange(PageRange(page), n) <==> n / ItemsPerPage == page {
      RowOnExactlyOnePage(n, page);
    }
  }

  /**
   * The rows `.range` returns from the table ordered newest first: the
   * requested block, cut off at the table's end.
   */
  function PageRows<T>(rows: seq<T>, page: nat): (got: seq<T>)
    ensures |got| <= ItemsPerPage
    ensures forall k :: 0 <= k < |got| ==> ItemsPerPage * page + k < |rows| && got[k] == rows[ItemsPerPage * page + k]
    ensures forall row :: 0 <= row < |rows| && InRange(PageRange(page), row) ==> row - ItemsPerPage * page < |got|
  {
    var first := ItemsPerPage * page;
    rows[Min(first, |rows|)..Min(first + ItemsPerPage, |rows|)]
  }

  // ---------------------------------------------------------------------
  // Page state
  // ---------------------------------------------------------------------

  function Max(a: int, b: int): int { if a < b then b else a }

  /** Previous's handler: `Math.max(0, page - 1)`. */
  function PreviousPage(page: int): (p: int)
    ensures p >= 0
    ensures page >= 1 ==> p == page - 1
    ensures page <= 0 ==> p == 0
  {
    Max(0, page - 1)
  }

  /** Next's handler. */
  function NextPage(page: int): (p: int)
    ensures p > page
  {
    page + 1
  }

  /** Previous undoes Next on every page; Next undoes Previous away from the first page. */
  lemma PreviousNextInverse(page: nat)
    ensures PreviousPage(NextPage(page)) == page
    ensures page >= 1 ==> NextPage(PreviousPage(page)) == page
  {
  }

  /** The page's `page` state. */
  class HistoryPage {
    var page: int

    ghost predicate Valid()
      reads this
    {
      page >= 0
    }

    constructor ()
      ensures page == 0 && Valid()
    {
      page := 0;
    }

    method Previous()
      modifies this
      ensures page == PreviousPage(old(page))
      ensures Valid()
    {
      page := Max(0, page - 1);
    }

    method Next()
      requires Valid()
      modifies this
      ensures page == NextPage(old(page))
      ensures Valid()
    {
      page := page + 1;
    }

    /** `disabled={page === 0}`: disabled exactly where pressing Previous would keep the page. */
    function PreviousDisabled(): (d: bool)
      reads this
      ensures d <==> page == 0
      ensures Valid() ==> (d <==> PreviousPage(page) == page)
    {
      page == 0
    }

    /**
     * `disabled={snapshots.length < itemsPerPage}`, where the snapshots are
     * the current page's rows of the ordered table: disabled exactly when
     * the table ends before the current page's last row.
     */
    function NextDisabled<T>(rows: seq<T>): (d: bool)
      requires Valid()
      reads this
      ensures d <==> |rows| < ItemsPerPage * (page + 1)
    {
      NextEnabledIff(rows, page);
      |PageRows(rows, page)| < ItemsPerPage
    }

    /** The "Page n" caption. */
    function PageNumber(): (n: int)
      reads this
      ensures Valid() ==> n >= 1
      ensures n - 1 == page
    {
      page + 1
    }

    /** The rows the current page asks for: exactly the rows whose index divided by 20 is the page. */
    function Requested(): (r: RowRange)
      requires Valid()
      reads this
      ensures r == PageRange(page)
      ensures forall n: nat :: InRange(r, n) <==> n / ItemsPerPage == page
    {
      PageHoldsItsRows(page);
      PageRange(page)
    }
  }

  /** On a valid page, Previous is disabled exactly where pressing it would change nothing. */
  lemma PreviousDisabledIffNoMove(page: nat)
    ensures page == 0 <==> PreviousPage(page) == page
  {
  }

  /**
   * Next stays enabled exactly while the table holds every row of the
   * current page; when the total is a multiple of 20 the last full page
   * still offers Next, and the page it leads to receives no rows.
   */
  lemma NextEnabledIff<T>(rows: seq<T>, page: nat)
    ensures |PageRows(rows, page)| >= ItemsPerPage <==> |rows| >= ItemsPerPage * (page + 1)
    ensures |rows| > 0 && |rows| % ItemsPerPage == 0 && page == |rows| / ItemsPerPage - 1
            ==> |PageRows(rows, page)| == ItemsPerPage && |PageRows(rows, page + 1)| == 0
  {
  }

  // ---------------------------------------------------------------------
  // Navigation to a snapshot's day and slot
  // ---------------------------------------------------------------------

  /** `handleImageClick`'s address; `replace(' ', '+')` touches only the first space. */
  function NavigationUrl(dateStr: string, timeSlot: string): string {
    "/?date=" + dateStr + "&time=" + ReplaceFirst(timeSlot, " ", "+")
  }

  /** The first space becomes '+', and everything after it is kept as it was, later spaces included. */
  lemma FirstSpaceOnly(before: string, after: string)
    requires ' ' !in before
    ensures ReplaceFirst(before + " " + after, " ", "+") == before + "+" + after
  {
    var s := before + " " + after;
    var i := |before|;
    assert s[i..i + 1] == " ";
    forall j | 0 <= j < i
      ensures !OccursAt(s, " ", j)
    {
      assert s[j..j + 1] == [before[j]];
    }
    ReplaceFirstAt(s, " ", "+", i);
    assert s[..i] == before && s[i + 1..] == after;
  }

  /** A time slot with no space is passed through unchanged. */
  lemma NoSpaceUnchanged(dateStr: string, timeSlot: string)
    requires ' ' !in timeSlot
    ensures NavigationUrl(dateStr, timeSlot) == "/?date=" + dateStr + "&time=" + timeSlot
  {
    forall j | 0 <= j <= |timeSlot|
      ensures !OccursAt(timeSlot, " ", j)
    {
      if j + 1 <= |timeSlot| {
        assert timeSlot[j..j + 1] == [timeSlot[j]];
      }
    }
  }

  /** A slot "a b" with no space in `a` is addressed as "a+b". */
  lemma SpacedSlotUrl(dateStr: string, before: string, after: string, timeSlot: string)
    requires ' ' !in before && timeSlot == before + " " + after
    ensures NavigationUrl(dateStr, timeSlot) == "/?date=" + dateStr + "&time=" + (before + "+" + after)
  {
    FirstSpaceOnly(before, after);
  }

  /** The addresses for the three slots the capture job stores. */
  lemma MorningSlotUrl(dateStr: string)
    ensures NavigationUrl(dateStr, CaptureGuards.SlotLabels[0]) == "/?date=" + dateStr + "&time=" + "7:30+AM"
  {
    assert "7:30" + "+" + "AM" == "7:30+AM";
    SpacedSlotUrl(dateStr, "7:30", "AM", CaptureGuards.SlotLabels[0]);
  }

  lemma NoonSlotUrl(dateStr: string)
    ensures NavigationUrl(dateStr, CaptureGuards.SlotLabels[1]) == "/?date=" + dateStr + "&time=" + "12:00+PM"
  {
    assert "12:00" + "+" + "PM" == "12:00+PM";
    SpacedSlotUrl(dateStr, "12:00", "PM", CaptureGuards.SlotLabels[1]);
  }

  lemma AfternoonSlotUrl(dateStr: string)
    ensures NavigationUrl(dateStr, CaptureGuards.SlotLabels[2]) == "/?date=" + dateStr + "&time=" + "3:30+PM"
  {
    assert "3:30" + "+" + "PM" == "3:30+PM";
    SpacedSlotUrl(dateStr, "3:30", "PM", CaptureGuards.SlotLabels[2]);
  }
}
