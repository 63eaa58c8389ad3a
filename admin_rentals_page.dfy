/** The labels of the admin rentals page: a rental's status (returned,
    overdue, active) as text and as a badge colour, and the rental period
    as text. `now` is the instant the page is drawn. */
module AdminRentalsPage {
  import opened Domain
  import Rentals
  import Reminders

  /** `isPast(endDate)`. */
  predicate IsPast(endDate: int, now: int)
  {
    endDate < now
  }

  /** `getStatusText`: returned first, then overdue, else active. */
  function StatusText(r: Rental, now: int): (t: string)
    ensures t == "Возвращена" <==> r.isReturned
    ensures t == "Просрочена" <==> !r.isReturned && IsPast(r.endDate, now)
    ensures t == "Активна" <==> !r.isReturned && !IsPast(r.endDate, now)
  {
    if r.isReturned then "Возвращена"
    else if IsPast(r.endDate, now) then "Просрочена"
    else "Активна"
  }

  /** `getStatusClass`: the same three branches, one colour each. */
  function StatusClass(r: Rental, now: int): (c: string)
    ensures c == "bg-green-100 text-green-800" <==> r.isReturned
    ensures c == "bg-red-100 text-red-800" <==> !r.isReturned && IsPast(r.endDate, now)
    ensures c == "bg-blue-100 text-blue-800" <==> !r.isReturned && !IsPast(r.endDate, now)
  {
    if r.isReturned then "bg-green-100 text-green-800"
    else if IsPast(r.endDate, now) then "bg-red-100 text-red-800"
    else "bg-blue-100 text-blue-800"
  }

  /** The badge colour of each status text. */
  function ClassOfText(t: string): string
  {
    match t
    case "Возвращена" => "bg-green-100 text-green-800"
    case "Просрочена" => "bg-red-100 text-red-800"
    case _ => "bg-blue-100 text-blue-800"
  }

  /** Text and colour are chosen by the same branches: each colour goes
      with exactly one text, whatever the rental and the instant. */
  lemma ClassFollowsText(r: Rental, s: Rental, now: int, later: int)
    ensures StatusClass(r, now) == ClassOfText(StatusText(r, now))
    ensures StatusClass(r, now) == StatusClass(s, later) <==> StatusText(r, now) == StatusText(s, later)
  {
  }

  /** A rental the reminder batch counts as overdue is shown as overdue, and
      one it counts as upcoming is shown as active. */
  lemma ReminderSelectionMatchesStatus(r: Rental, now: int)
    ensures Reminders.IsOverdue(r, now) ==> StatusText(r, now) == "Просрочена"
    ensures Reminders.IsUpcoming(r, now) ==> StatusText(r, now) == "Активна"
  {
  }

  /** A rental made at `now` is active at `now`, and overdue once its end
      is past. */
  lemma NewRentalIsActive(books: seq<Book>, rentals: seq<Rental>, nextId: nat, caller: Option<Caller>,
                          bookId: Option<Id>, period: Option<string>, now: int, later: int)
    ensures var o := Rentals.RentStep(books, rentals, nextId, caller, bookId, period, now);
      o.reply.Ok? ==> (StatusText(o.rentals[|rentals|], now) == "Активна"
        && (later > o.rentals[|rentals|].endDate ==> StatusText(o.rentals[|rentals|], later) == "Просрочена"))
  {
  }

  /** `getRentalPeriodText`: the three periods in words; any other value
      is shown as it is. */
  function RentalPeriodText(period: string): (t: string)
    ensures period == "TWO_WEEKS" ==> t == "2 недели"
    ensures period == "ONE_MONTH" ==> t == "1 месяц"
    ensures period == "THREE_MONTHS" ==> t == "3 месяца"
    ensures t == period <==> period !in ["TWO_WEEKS", "ONE_MONTH", "THREE_MONTHS"]
  {
    match period
    case "TWO_WEEKS" => "2 недели"
    case "ONE_MONTH" => "1 месяц"
    case "THREE_MONTHS" => "3 месяца"
    case _ => period
  }

  /** The text of a known period agrees with its length in days. */
  lemma PeriodTextMatchesDays(period: string)
    requires period in ["TWO_WEEKS", "ONE_MONTH", "THREE_MONTHS"]
    ensures RentalPeriodText(period) == "2 недели" <==> Rentals.PeriodDays(period) == 14
    ensures RentalPeriodText(period) == "1 месяц" <==> Rentals.PeriodDays(period) == 30
    ensures RentalPeriodText(period) == "3 месяца" <==> Rentals.PeriodDays(period) == 90
  {
  }
}
