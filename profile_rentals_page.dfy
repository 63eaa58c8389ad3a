/** The user's rentals page (`/profile/rentals`): the rentals from
    `GET /api/rentals` split into active and past lists, and the return
    button, which on success moves the rental from the active list to the
    front of the past list. The server's answer is a parameter `ok`. */
module ProfileRentalsPage {
  import opened Domain
  import Seqs

  function ActiveOf(rentals: seq<Rental>): (r: seq<Rental>)
    ensures forall x :: x in r <==> x in rentals && !x.isReturned
  {
    Seqs.Filter(rentals, (x: Rental) => !x.isReturned)
  }

  function PastOf(rentals: seq<Rental>): (r: seq<Rental>)
    ensures forall x :: x in r <==> x in rentals && x.isReturned
  {
    Seqs.Filter(rentals, (x: Rental) => x.isReturned)
  }

  /** The two lists split the loaded rentals: nothing lost, nothing twice,
      no rental in both, each keeping the original order. */
  lemma PartitionCovers(rentals: seq<Rental>)
    ensures multiset(ActiveOf(rentals)) + multiset(PastOf(rentals)) == multiset(rentals)
    ensures |ActiveOf(rentals)| + |PastOf(rentals)| == |rentals|
    ensures forall x :: !(x in ActiveOf(rentals) && x in PastOf(rentals))
    ensures Seqs.Subsequence(ActiveOf(rentals), rentals) && Seqs.Subsequence(PastOf(rentals), rentals)
  {
    Seqs.FilterPartition(rentals, (x: Rental) => !x.isReturned, (x: Rental) => x.isReturned);
    Seqs.FilterIsSubsequence(rentals, (x: Rental) => !x.isReturned);
    Seqs.FilterIsSubsequence(rentals, (x: Rental) => x.isReturned);
  }

  /** `rentals.find(rental => rental.id === rentalId)`. */
  function FindRental(rentals: seq<Rental>, rentalId: Id): (r: Option<Rental>)
    ensures r.Some? ==> r.value in rentals && r.value.id == rentalId
    ensures r.None? ==> forall x :: x in rentals ==> x.id != rentalId
    ensures r.Some? ==> exists i :: (0 <= i < |rentals| && rentals[i] == r.value
      && forall j :: 0 <= j < i ==> rentals[j].id != rentalId)
  {
    if rentals == [] then None
    else if rentals[0].id == rentalId then Some(rentals[0])
    else
      assert forall x :: x in rentals ==> x == rentals[0] || x in rentals[1..];
      var rest := FindRental(rentals[1..], rentalId);
      assert rest.Some? ==> exists i :: (0 <= i < |rentals| && rentals[i] == rest.value
        && forall j :: 0 <= j < i ==> rentals[j].id != rentalId) by {
        if rest.Some? {
          var i :| 0 <= i < |rentals[1..]| && rentals[1..][i] == rest.value
            && (forall j :: 0 <= j < i ==> rentals[1..][j].id != rentalId);
          assert rentals[i + 1] == rest.value;
          assert forall j :: 1 <= j < i + 1 ==> rentals[j] == rentals[1..][j - 1];
        }
      }
      rest
  }

  function WithoutRental(rentals: seq<Rental>, rentalId: Id): (r: seq<Rental>)
    ensures forall x :: x in r <==> x in rentals && x.id != rentalId
  {
    Seqs.Filter(rentals, (x: Rental) => x.id != rentalId)
  }

  /** The page's state: the loaded rentals and the two lists shown. */
  class RentalsPageState {
    var rentals: seq<Rental>
    var activeRentals: seq<Rental>
    var pastRentals: seq<Rental>
    var error: bool
    var sent: seq<Id>

    /** The effect of `fetchRentals`; `loaded` is `None` when it failed. */
    constructor (loaded: Option<seq<Rental>>)
      ensures loaded.Some? ==> (rentals == loaded.value
        && activeRentals == ActiveOf(loaded.value) && pastRentals == PastOf(loaded.value))
      ensures loaded.None? ==> rentals == [] && activeRentals == [] && pastRentals == []
      ensures error == loaded.None? && sent == []
    {
      if loaded.Some? {
        rentals := loaded.value;
        activeRentals := ActiveOf(loaded.value);
        pastRentals := PastOf(loaded.value);
        error := false;
      } else {
        rentals := [];
        activeRentals := [];
        pastRentals := [];
        error := true;
      }
      sent := [];
    }

    /** `handleReturnBook`. The copy put in front of the past list comes
        from the list loaded at first, not from the active list. */
    method ReturnBook(rentalId: Id, ok: bool)
      modifies this
      ensures sent == old(sent) + [rentalId]
      ensures ok ==> activeRentals == WithoutRental(old(activeRentals), rentalId)
      ensures ok ==> pastRentals == match FindRental(old(rentals), rentalId)
        case Some(x) => [x.(isReturned := true)] + old(pastRentals)
        case None => old(pastRentals)
      ensures !ok ==> activeRentals == old(activeRentals) && pastRentals == old(pastRentals)
      ensures rentals == old(rentals) && error == old(error)
    {
      sent := sent + [rentalId];
      if !ok {
        return;
      }
      activeRentals := WithoutRental(activeRentals, rentalId);
      var returned := FindRental(rentals, rentalId);
      if returned.Some? {
        pastRentals := [returned.value.(isReturned := true)] + pastRentals;
      }
    }
  }

  /** With distinct ids, the rental found by id is the one at that position. */
  lemma FindByUniqueId(rentals: seq<Rental>, k: nat)
    requires k < |rentals|
    requires forall i, j :: 0 <= i < j < |rentals| ==> rentals[i].id != rentals[j].id
    ensures FindRental(rentals, rentals[k].id) == Some(rentals[k])
  {
    var f := FindRental(rentals, rentals[k].id);
    assert rentals[k] in rentals;
    var m :| 0 <= m < |rentals| && rentals[m] == f.value;
    assert rentals[m].id == rentals[k].id;
  }

  /** Right after loading, a successful return of active rental `k` leaves
      the page showing what reloading would show with that rental returned:
      the same active list, and the same past rentals (the returned copy in
      front rather than in its place). */
  lemma ReturnMatchesReload(rentals: seq<Rental>, k: nat)
    requires k < |rentals| && !rentals[k].isReturned
    requires forall i, j :: 0 <= i < j < |rentals| ==> rentals[i].id != rentals[j].id
    ensures var returned := rentals[k].(isReturned := true);
      var after := rentals[k := returned];
      && FindRental(rentals, rentals[k].id) == Some(rentals[k])
      && WithoutRental(ActiveOf(rentals), rentals[k].id) == ActiveOf(after)
      && multiset([returned] + PastOf(rentals)) == multiset(PastOf(after))
  {
    var id := rentals[k].id;
    var returned := rentals[k].(isReturned := true);
    var after := rentals[k := returned];
    FindByUniqueId(rentals, k);
    var activeOther := (x: Rental) => !x.isReturned && x.id != id;
    Seqs.FilterFilter(rentals, (x: Rental) => !x.isReturned, (x: Rental) => x.id != id, activeOther);
    forall i | 0 <= i < |rentals| ensures activeOther(rentals[i]) == !after[i].isReturned
      && (activeOther(rentals[i]) ==> rentals[i] == after[i])
    {
      if i != k {
        assert rentals[i].id != id by {
          if i < k {
            assert rentals[i].id != rentals[k].id;
          } else {
            assert rentals[k].id != rentals[i].id;
          }
        }
      }
    }
    Seqs.FilterPointwise(rentals, after, activeOther, (x: Rental) => !x.isReturned);
    Seqs.FilterUpdate(rentals, k, returned, (x: Rental) => x.isReturned);
  }
}
