/**
 * The sales user's list of sourcing requests: the status badge each row
 * shows, whether the row offers the delete button, and the previous/next
 * pager. The list itself comes from the requests endpoint and is a
 * parameter here.
 */
module SourcingList {
  import opened Js
  import opened Optional
  import opened SourcingStatus

  /** A request row with the tasks the endpoint joined to it, first one
      first. A null task status is "". */
  datatype TaskRef = TaskRef(id: int, status: string)
  datatype Row = Row(id: int, status: string, tasks: seq<TaskRef>)

  // ---------------------------------------------------------------------------
  // Status badge

  datatype Tone = Gray | Blue | Yellow | Green | Red

  datatype Badge = Badge(caption: string, tone: Tone)

  /** The `statusMap` of `getStatusBadge`. */
  const StatusMap: map<string, Badge> := map[
    "pending" := Badge("대기중", Gray),
    "assigned" := Badge("할당됨", Blue),
    "in_progress" := Badge("진행중", Yellow),
    "completed" := Badge("완료", Green),
    "cancelled" := Badge("취소", Red)]

  /** `statusMap[status] || { label: status, className: gray }`: a known
      status gets its badge, any other status is shown as it is, in gray. */
  function StatusBadge(status: string): (b: Badge)
    ensures status in StatusMap ==> b == StatusMap[status]
    ensures status !in StatusMap ==> b == Badge(status, Gray)
  {
    if status in StatusMap then StatusMap[status] else Badge(status, Gray)
  }

  /** Two statuses show the same badge only when they are equal, or when one
      is 'pending' and the other is literally its label '대기중' (the only
      known badge in the gray an unknown status also gets). */
  lemma {:induction false} SameBadge(s1: string, s2: string)
    ensures StatusBadge(s1) == StatusBadge(s2) <==>
      s1 == s2 || (s1 == "pending" && s2 == "대기중") || (s1 == "대기중" && s2 == "pending")
  {
    if StatusBadge(s1) == StatusBadge(s2) && s1 != s2 {
      if s1 in StatusMap && s2 in StatusMap {
        assert false;
      } else if s1 in StatusMap {
        assert StatusMap[s1].tone == Gray;
        assert s1 == "pending";
      } else if s2 in StatusMap {
        assert StatusMap[s2].tone == Gray;
        assert s2 == "pending";
      }
    }
  }

  /** The status a row shows: its first task's, else its own. */
  function ShownStatus(row: Row): (s: string)
    ensures |row.tasks| > 0 && row.tasks[0].status != "" ==> s == row.tasks[0].status
    ensures |row.tasks| == 0 || row.tasks[0].status == "" ==> s == row.status
  {
    EffectiveStatus(if |row.tasks| > 0 then Some(row.tasks[0].status) else None, row.status)
  }

  // ---------------------------------------------------------------------------
  // Delete button

  /** The delete button is offered while the request has no task, or its
      first task is still 'unassigned'. */
  predicate CanDelete(row: Row) {
    |row.tasks| == 0 || row.tasks[0].status == "unassigned"
  }

  /** A deletable row shows either its own status (no task yet) or the raw
      'unassigned' in gray, since 'unassigned' has no entry in the map; a
      row that shows any known status other than its own has a task that
      has moved on and cannot be deleted. */
  lemma {:induction false} DeletableBadge(row: Row)
    ensures CanDelete(row) && |row.tasks| == 0 ==> StatusBadge(ShownStatus(row)) == StatusBadge(row.status)
    ensures CanDelete(row) && |row.tasks| > 0 ==> StatusBadge(ShownStatus(row)) == Badge("unassigned", Gray)
    ensures ShownStatus(row) != row.status && ShownStatus(row) in StatusMap ==> !CanDelete(row)
  {
  }

  // ---------------------------------------------------------------------------
  // Pager

  /** `totalPages || 1`: a missing or zero page count becomes one page. */
  function TotalPages(reported: Option<int>): (t: int)
    ensures t != 0
    ensures reported.Some? && reported.value != 0 ==> t == reported.value
    ensures reported.None? || reported.value == 0 ==> t == 1
  {
    if reported.Some? && reported.value != 0 then reported.value else 1
  }

  datatype Button = Previous | Next

  /** What pressing a pager button does to `currentPage`. The pager is shown
      only when there is more than one page; 'previous' is disabled on page
      1 and 'next' on the last page, and a hidden or disabled button does
      nothing. Otherwise 'previous' is `Math.max(1, prev - 1)` and 'next'
      `Math.min(totalPages, prev + 1)`. */
  function Press(button: Button, page: int, totalPages: int): (r: int)
    ensures totalPages <= 1 ==> r == page
    ensures totalPages > 1 && button == Previous ==> r >= 1 && (page > 1 ==> r == page - 1) && (page <= 1 ==> r == 1)
    ensures totalPages > 1 && button == Next ==>
      r <= totalPages && (page < totalPages ==> r == page + 1) && (page >= totalPages ==> r == totalPages)
  {
    if totalPages <= 1 then page
    else match button
      case Previous => if page == 1 then page else if 1 < page - 1 then page - 1 else 1
      case Next => if page == totalPages then page else Min(totalPages, page + 1)
  }

  /** The page after a sequence of presses. */
  function Browse(presses: seq<Button>, page: int, totalPages: int): int {
    if |presses| == 0 then page
    else Browse(presses[1..], Press(presses[0], page, totalPages), totalPages)
  }

  /** A page within `[1, totalPages]` stays there whatever is pressed, and
      each press moves at most one page. */
  lemma {:induction false} PressStaysInRange(button: Button, page: int, totalPages: int)
    requires 1 <= page <= totalPages
    ensures 1 <= Press(button, page, totalPages) <= totalPages
    ensures -1 <= Press(button, page, totalPages) - page <= 1
  {
  }

  /** Any sequence of presses from a page in range ends in range. */
  lemma {:induction false} BrowseStaysInRange(presses: seq<Button>, page: int, totalPages: int)
    requires 1 <= page <= totalPages
    ensures 1 <= Browse(presses, page, totalPages) <= totalPages
  {
    if |presses| > 0 {
      PressStaysInRange(presses[0], page, totalPages);
      BrowseStaysInRange(presses[1..], Press(presses[0], page, totalPages), totalPages);
    }
  }

  /** When the page count shrinks below the current page (a delete reloads
      the list without resetting the page), 'next' is still enabled and
      brings the page back to the last one. */
  lemma {:induction false} NextReturnsToLastPage(page: int, totalPages: int)
    requires 1 < totalPages < page
    ensures Press(Next, page, totalPages) == totalPages
  {
  }

  /** 'next' undoes 'previous' away from the first page, and 'previous'
      undoes 'next' away from the last. */
  lemma {:induction false} PressesUndo(page: int, totalPages: int)
    requires 1 <= page <= totalPages
    ensures page > 1 ==> Press(Next, Press(Previous, page, totalPages), totalPages) == page
    ensures page < totalPages ==> Press(Previous, Press(Next, page, totalPages), totalPages) == page
  {
  }
}
