/** Date and priority predicates over tasks. Instants are milliseconds in
    device-local time; a calendar day is a whole multiple of 24 hours, so
    the date of an instant is its floor quotient by the length of a day. */
module Helpers {
  import opened Common

  const DayMs: int := 86_400_000

  /** The local calendar day an instant falls on. */
  function Day(t: Time): int {
    t / DayMs
  }

  /** `setHours(0, 0, 0, 0)`: the first instant of the same day. */
  function Midnight(t: Time): (m: Time)
    ensures m <= t < m + DayMs
    ensures Day(m) == Day(t)
  {
    Day(t) * DayMs
  }

  /** Two midnights compare like their days. */
  lemma MidnightOrder(a: Time, b: Time)
    ensures Midnight(a) < Midnight(b) <==> Day(a) < Day(b)
  {
    if Day(a) < Day(b) {
      assert Day(a) * DayMs <= (Day(b) - 1) * DayMs;
    }
  }

  /** A day comes before the day of `now` exactly when it ends by `now`'s midnight. */
  lemma DayBefore(d: Time, now: Time)
    ensures Day(d) < Day(now) <==> d < Midnight(now)
  {
    MidnightOrder(d, now);
  }

  // ---------------------------------------------------------------------
  // getPriorityOrder

  /** The rank sorts and statistics use: `high` 3, `medium` 2, `low` 1,
      anything else 0. */
  function PriorityOrder(priority: string): (rank: nat)
    ensures rank <= 3
    ensures rank > 0 <==> IsLevel(priority)
  {
    match priority
    case "high" => 3
    case "medium" => 2
    case "low" => 1
    case _ => 0
  }

  predicate IsLevel(priority: string) {
    priority == "high" || priority == "medium" || priority == "low"
  }

  /** The three levels have distinct ranks, ordered high over medium over
      low, and every other value ranks below all of them. */
  lemma PriorityRanks(p: string, q: string)
    ensures IsLevel(p) && IsLevel(q) && PriorityOrder(p) == PriorityOrder(q) ==> p == q
    ensures PriorityOrder("high") > PriorityOrder("medium") > PriorityOrder("low") > PriorityOrder(q) || IsLevel(q)
  {
  }

  // ---------------------------------------------------------------------
  // isOverdue, isDueToday, isDueSoon, formatDate

  /** `isOverdue`: a due date whose day is before today's; none is never overdue. */
  predicate Overdue(due: Option<Time>, now: Time) {
    due.Some? && Day(due.value) < Day(now)
  }

  /** `isDueToday`: year, month and day equal today's, i.e. the same day. */
  predicate DueToday(due: Option<Time>, now: Time) {
    due.Some? && Day(due.value) == Day(now)
  }

  /** `isDueSoon`: between now and three days later, both ends included,
      on the instants themselves. */
  predicate DueSoon(due: Option<Time>, now: Time) {
    due.Some? && now <= due.value <= now + 3 * DayMs
  }

  /** For one `now`, no due date is both overdue and due today. */
  lemma OverdueExcludesToday(due: Option<Time>, now: Time)
    ensures !(Overdue(due, now) && DueToday(due, now))
  {
  }

  /** Overdue means: strictly before the start of today. */
  lemma OverdueBeforeMidnight(due: Option<Time>, now: Time)
    ensures Overdue(due, now) <==> due.Some? && due.value < Midnight(now)
  {
    if due.Some? {
      DayBefore(due.value, now);
    }
  }

  /** A date due soon is never overdue, and one due soon before tomorrow
      starts is due today. */
  lemma DueSoonNotOverdue(due: Option<Time>, now: Time)
    ensures DueSoon(due, now) ==> !Overdue(due, now)
    ensures DueSoon(due, now) && due.value < Midnight(now) + DayMs ==> DueToday(due, now)
  {
    if DueSoon(due, now) {
      assert Midnight(now) <= now <= due.value;
      OverdueBeforeMidnight(due, now);
      if due.value < Midnight(now) + DayMs {
        assert Day(due.value) == Day(now) by {
          assert Day(now) * DayMs <= due.value < (Day(now) + 1) * DayMs;
        }
      }
    }
  }

  /** The label `formatDate` chooses; any other date is printed in the
      locale's short form. */
  datatype DateLabel = NoDueDate | Today | Tomorrow | OnDate(t: Time)

  /** `Today` is shown exactly for the dates `isDueToday` accepts, and
      `Tomorrow` exactly for the dates of the day after, which are neither
      overdue nor due today. */
  function FormatDate(due: Option<Time>, now: Time): (shown: DateLabel)
    ensures shown == NoDueDate <==> due.None?
    ensures shown == Today <==> DueToday(due, now)
    ensures shown == Tomorrow <==> due.Some? && Day(due.value) == Day(now) + 1
    ensures shown == Tomorrow ==> !Overdue(due, now) && !DueToday(due, now)
    ensures shown.OnDate? ==> shown.t == due.value
  {
    if due.None? then NoDueDate
    else if Day(due.value) == Day(now) then Today
    else if Day(due.value) == Day(now) + 1 then Tomorrow
    else OnDate(due.value)
  }

  /** A JavaScript `Date`: a mutable instant. */
  class DateCell {
    var time: Time

    constructor (t: Time)
      ensures time == t
    {
      time := t;
    }

    /** `setHours(0, 0, 0, 0)`. */
    method SetMidnight()
      modifies this
      ensures time == Midnight(old(time))
    {
      time := Day(time) * DayMs;
    }
  }

  /** What the date helpers accept: nothing (`null`/`undefined`), a stored
      `Timestamp`, or a `Date` object owned by the caller. */
  datatype DueArg = NoDue | StampArg(t: Time) | DateArg(cell: DateCell)

  /** `isOverdue`. A `Timestamp` is first copied into a new `Date`; a `Date`
      argument is used as is. Both today and that date are truncated to
      midnight in place and then compared, so a caller's `Date` is left at
      the start of its day. */
  method IsOverdue(due: DueArg, now: Time) returns (r: bool)
    modifies if due.DateArg? then {due.cell} else {}
    ensures due.NoDue? ==> !r
    ensures due.StampArg? ==> r == Overdue(Some(due.t), now)
    ensures due.DateArg? ==> r == Overdue(Some(old(due.cell.time)), now) && due.cell.time == Midnight(old(due.cell.time))
  {
    if due.NoDue? {
      return false;
    }
    var dateObj: DateCell;
    if due.StampArg? {
      dateObj := new DateCell(due.t);
    } else {
      dateObj := due.cell;
    }
    var given := dateObj.time;
    var today := new DateCell(now);
    today.SetMidnight();
    dateObj.SetMidnight();
    MidnightOrder(given, now);
    r := dateObj.time < today.time;
  }
}
