/** `POST /api/admin/rental-reminders`: among the un-returned rentals not yet
    reminded, the ones ending within the next three days ("upcoming") and
    the ones already past their end ("overdue") are flagged `reminderSent`
    in one batch, and the counts are returned. No notification is sent. */
module Reminders {
  import opened Domain
  import opened Store
  import Seqs

  predicate Eligible(r: Rental)
  {
    !r.isReturned && !r.reminderSent
  }

  /** `endDate: { gt: now, lte: addDays(now, 3) }`. */
  predicate IsUpcoming(r: Rental, now: int)
  {
    Eligible(r) && now < r.endDate <= AddDays(now, 3)
  }

  /** `endDate: { lt: now }`. */
  predicate IsOverdue(r: Rental, now: int)
  {
    Eligible(r) && r.endDate < now
  }

  function Upcoming(rentals: seq<Rental>, now: int): (u: seq<Rental>)
    ensures forall x :: x in u <==> x in rentals && IsUpcoming(x, now)
  {
    Seqs.Filter(rentals, (x: Rental) => IsUpcoming(x, now))
  }

  function Overdue(rentals: seq<Rental>, now: int): (o: seq<Rental>)
    ensures forall x :: x in o <==> x in rentals && IsOverdue(x, now)
  {
    Seqs.Filter(rentals, (x: Rental) => IsOverdue(x, now))
  }

  function Ids(rs: seq<Rental>): (ids: seq<Id>)
    ensures |ids| == |rs|
    ensures forall i :: 0 <= i < |rs| ==> ids[i] == rs[i].id
  {
    seq(|rs|, i requires 0 <= i < |rs| => rs[i].id)
  }

  /** The body of the reply: `{ success: true, upcoming, overdue, total }`. */
  datatype ReminderCounts = ReminderCounts(upcoming: nat, overdue: nat, total: nat)

  datatype ReminderOutcome = ReminderOutcome(reply: Reply<ReminderCounts>, rentals: seq<Rental>)

  /** What the batch does to the rental table at the instant `now`. */
  function SendRemindersStep(rentals: seq<Rental>, caller: Option<Caller>, now: int): (r: ReminderOutcome)
    ensures !IsAdmin(caller) ==> r == ReminderOutcome(Err(Forbidden), rentals)
    ensures IsAdmin(caller) ==> r.reply.Ok? && r.reply.value.total == r.reply.value.upcoming + r.reply.value.overdue
    ensures IsAdmin(caller) ==>
      r.reply == Ok(ReminderCounts(|Upcoming(rentals, now)|, |Overdue(rentals, now)|, |BatchIds(rentals, now)|))
    ensures |r.rentals| == |rentals|
  {
    if !IsAdmin(caller) then ReminderOutcome(Err(Forbidden), rentals)
    else
      var upcoming := Upcoming(rentals, now);
      var overdue := Overdue(rentals, now);
      var reminderIds := BatchIds(rentals, now);
      var updated := if |reminderIds| > 0 then WithReminderSent(rentals, set i | i in reminderIds) else rentals;
      ReminderOutcome(Ok(ReminderCounts(|upcoming|, |overdue|, |reminderIds|)), updated)
  }

  /** The two selections never overlap; a rental ending exactly at `now` is
      in neither, and one ending exactly three days later is upcoming. */
  lemma UpcomingOverdueDisjoint(rentals: seq<Rental>, now: int)
    ensures forall x :: !(x in Upcoming(rentals, now) && x in Overdue(rentals, now))
    ensures forall x :: x in rentals && x.endDate == now ==> x !in Upcoming(rentals, now) && x !in Overdue(rentals, now)
    ensures forall x :: x in rentals && Eligible(x) && x.endDate == now + 3 * DayMs ==> x in Upcoming(rentals, now)
  {
  }

  /** `total` counts each selected rental exactly once: it is the number of
      rentals that are upcoming or overdue. */
  lemma {:induction false} TotalCountsSelected(rentals: seq<Rental>, now: int)
    ensures |Upcoming(rentals, now)| + |Overdue(rentals, now)|
      == Seqs.Count(rentals, (x: Rental) => IsUpcoming(x, now) || IsOverdue(x, now))
  {
    if rentals != [] {
      TotalCountsSelected(rentals[1..], now);
    }
  }

  /** The ids handed to `updateMany`. */
  function BatchIds(rentals: seq<Rental>, now: int): (ids: seq<Id>)
    ensures |ids| == |Upcoming(rentals, now)| + |Overdue(rentals, now)|
  {
    Ids(Upcoming(rentals, now)) + Ids(Overdue(rentals, now))
  }

  /** Every selected rental's id is in the batch. */
  lemma SelectedIsListed(rentals: seq<Rental>, now: int, i: nat)
    requires i < |rentals| && (IsUpcoming(rentals[i], now) || IsOverdue(rentals[i], now))
    ensures rentals[i].id in BatchIds(rentals, now)
  {
    var upcoming, overdue := Upcoming(rentals, now), Overdue(rentals, now);
    if IsUpcoming(rentals[i], now) {
      assert rentals[i] in upcoming;
      var j :| 0 <= j < |upcoming| && upcoming[j] == rentals[i];
      assert BatchIds(rentals, now)[j] == rentals[i].id;
    } else {
      assert rentals[i] in overdue;
      var j :| 0 <= j < |overdue| && overdue[j] == rentals[i];
      assert BatchIds(rentals, now)[|upcoming| + j] == rentals[i].id;
    }
  }

  /** With distinct ids, a rental whose id is in the batch was selected. */
  lemma ListedIsSelected(rentals: seq<Rental>, n: nat, now: int, i: nat)
    requires RentalIdsValid(rentals, n)
    requires i < |rentals| && rentals[i].id in BatchIds(rentals, now)
    ensures IsUpcoming(rentals[i], now) || IsOverdue(rentals[i], now)
  {
    var upcoming, overdue := Upcoming(rentals, now), Overdue(rentals, now);
    var ids := BatchIds(rentals, now);
    var j :| 0 <= j < |ids| && ids[j] == rentals[i].id;
    var x := if j < |upcoming| then upcoming[j] else overdue[j - |upcoming|];
    assert x in upcoming || x in overdue;
    assert x.id == rentals[i].id;
    var m :| 0 <= m < |rentals| && rentals[m] == x;
    assert m == i;
  }

  /** After a run, every rental that was selected is flagged and otherwise
      unchanged, and every other rental is exactly as it was. */
  lemma RunMarksExactlySelected(rentals: seq<Rental>, n: nat, caller: Caller, now: int)
    requires caller.role == Admin
    requires RentalIdsValid(rentals, n)
    ensures var r := SendRemindersStep(rentals, Some(caller), now);
      forall i :: 0 <= i < |rentals| ==>
        r.rentals[i] == if IsUpcoming(rentals[i], now) || IsOverdue(rentals[i], now)
                        then rentals[i].(reminderSent := true) else rentals[i]
  {
    var r := SendRemindersStep(rentals, Some(caller), now);
    forall i | 0 <= i < |rentals|
      ensures r.rentals[i] == if IsUpcoming(rentals[i], now) || IsOverdue(rentals[i], now)
                              then rentals[i].(reminderSent := true) else rentals[i]
    {
      if IsUpcoming(rentals[i], now) || IsOverdue(rentals[i], now) {
        SelectedIsListed(rentals, now, i);
      } else if rentals[i].id in BatchIds(rentals, now) {
        ListedIsSelected(rentals, n, now, i);
      }
    }
  }

  /** Running the batch again at the same instant selects nothing, reports
      a total of 0 and changes nothing: flagged rentals are excluded. */
  lemma RerunReportsZero(rentals: seq<Rental>, caller: Caller, now: int)
    requires caller.role == Admin
    ensures var r1 := SendRemindersStep(rentals, Some(caller), now);
      SendRemindersStep(r1.rentals, Some(caller), now) == ReminderOutcome(Ok(ReminderCounts(0, 0, 0)), r1.rentals)
  {
    var r1 := SendRemindersStep(rentals, Some(caller), now);
    forall i | 0 <= i < |r1.rentals| ensures !IsUpcoming(r1.rentals[i], now) && !IsOverdue(r1.rentals[i], now) {
      if IsUpcoming(rentals[i], now) || IsOverdue(rentals[i], now) {
        SelectedIsListed(rentals, now, i);
      }
    }
    NoneSelected(r1.rentals, now);
  }

  lemma NoneSelected(rentals: seq<Rental>, now: int)
    requires forall i :: 0 <= i < |rentals| ==> !IsUpcoming(rentals[i], now) && !IsOverdue(rentals[i], now)
    ensures Upcoming(rentals, now) == [] && Overdue(rentals, now) == []
  {
    Seqs.FilterNone(rentals, (x: Rental) => IsUpcoming(x, now));
    Seqs.FilterNone(rentals, (x: Rental) => IsOverdue(x, now));
  }

  /** The batch handler against the store. */
  method SendReminders(db: Database, caller: Option<Caller>, now: int) returns (r: Reply<ReminderCounts>)
    requires db.Valid()
    modifies db
    ensures db.Valid()
    ensures var s := SendRemindersStep(old(db.rentals), caller, now);
      r == s.reply && db.rentals == s.rentals
    ensures db.books == old(db.books) && db.users == old(db.users) && db.orders == old(db.orders)
    ensures db.nextId == old(db.nextId)
  {
    if !IsAdmin(caller) {
      return Err(Forbidden);
    }
    var upcoming := Upcoming(db.rentals, now);
    var overdue := Overdue(db.rentals, now);
    var reminderIds := BatchIds(db.rentals, now);
    if |reminderIds| > 0 {
      db.MarkReminded(set i | i in reminderIds);
    }
    r := Ok(ReminderCounts(|upcoming|, |overdue|, |reminderIds|));
  }
}
