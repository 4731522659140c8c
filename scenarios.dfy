/** Worked examples of the store, proved from the methods' contracts alone:
    a dinner bill of 100 split three ways, paid off one by one, and the
    same bill after one diner leaves. */
module Scenarios {
  import opened Types
  import opened BillOps
  import Utils
  import opened Store

  lemma ThreeWaySplitOfHundred()
    ensures Utils.CalculateEqualSplit(100.0, 3) == 33.33
  {
  }

  lemma TwoWaySplitOfHundred()
    ensures Utils.CalculateEqualSplit(100.0, 2) == 50.0
  {
  }

  function Diner(name: string): ParticipantInfo {
    ParticipantInfo(name, None, None, None)
  }

  /** The dinner bill with three diners who have not paid yet. */
  predicate Unpaid(b: Bill) {
    b.id == "b1" && b.totalAmount == 100.0 && b.splitType == Equal && b.status == Pending &&
    |b.participants| == 3 &&
    b.participants[0].id == "p1" && b.participants[1].id == "p2" && b.participants[2].id == "p3" &&
    forall i :: 0 <= i < 3 ==> b.participants[i].amount == 33.33 && !b.participants[i].paid
  }

  /** A store holding only the dinner bill, which is also the current one. */
  method SetUpDinner() returns (s: BillStore)
    ensures fresh(s) && |s.bills| == 1 && Unpaid(s.bills[0]) && s.currentBill == Some(s.bills[0])
  {
    s := new BillStore();
    var bill := s.CreateBill("Dinner", 100.0, None, "b1", 0);
    assert s.bills == [bill];
    assert Find(s.bills, "b1") == Some(bill);
    s.AddParticipant("b1", Diner("Alice"), "p1");
    var b := s.bills[0];
    assert |s.bills| == 1 && |b.participants| == 1 && b.participants[0].id == "p1";
    assert Find(s.bills, "b1") == Some(b);
    s.AddParticipant("b1", Diner("Bob"), "p2");
    b := s.bills[0];
    assert |s.bills| == 1 && |b.participants| == 2 && b.participants[1].id == "p2";
    assert Find(s.bills, "b1") == Some(b);
    s.AddParticipant("b1", Diner("Carol"), "p3");
    b := s.bills[0];
    var ps := b.participants;
    assert |s.bills| == 1 && |ps| == 3 && ps[2].id == "p3";
    ThreeWaySplitOfHundred();
    assert forall i :: 0 <= i < 3 ==> ps[i].amount == 33.33;
  }

  /** The dinner bill: id "b1" and the diners "p1", "p2", "p3" in order. */
  predicate DinnerShape(b: Bill) {
    b.id == "b1" && |b.participants| == 3 &&
    b.participants[0].id == "p1" && b.participants[1].id == "p2" && b.participants[2].id == "p3"
  }

  function DinerId(k: nat): string {
    if k == 0 then "p1" else if k == 1 then "p2" else "p3"
  }

  /** Diner `k` pays; the other flags stay and the status is recomputed. */
  method PayDiner(s: BillStore, k: nat)
    requires k < 3 && |s.bills| == 1 && DinnerShape(s.bills[0]) && s.currentBill == Some(s.bills[0])
    modifies s
    ensures |s.bills| == 1 && DinnerShape(s.bills[0]) && s.currentBill == Some(s.bills[0])
    ensures forall j :: 0 <= j < 3 ==>
      s.bills[0].participants[j].paid == (j == k || old(s.bills[0].participants[j].paid))
    ensures s.bills[0].status == DeriveStatus(s.bills[0].participants)
  {
    var b := s.bills[0];
    assert Find(s.bills, "b1") == Some(b);
    s.MarkAsPaid("b1", DinerId(k), true);
    var ps := WithPaidFor(b.participants, DinerId(k), true);
    assert s.bills[0] == b.(participants := ps, status := DeriveStatus(ps));
    assert "p1" != "p2" && "p1" != "p3" && "p2" != "p3";
  }

  /** One payment makes the bill partial; all three make it settled. */
  method PayOffDinner() {
    var s := SetUpDinner();
    PayDiner(s, 0);
    assert s.bills[0].participants[0].paid;
    assert s.bills[0].status == Partial;
    PayDiner(s, 1);
    PayDiner(s, 2);
    assert s.bills[0].status == Settled;
  }

  /** Removing the last of three diners leaves the first two, re-split. */
  lemma {:induction false} RemoveThird(ps: seq<Participant>)
    requires |ps| == 3 && ps[0].id == "p1" && ps[1].id == "p2" && ps[2].id == "p3"
    ensures var r := ParticipantsAfterRemove(ps, 100.0, "p3");
      |r| == 2 && r[0].amount == 50.0 && r[1].amount == 50.0
  {
    assert ps[0].id != "p3" && ps[1].id != "p3";
    assert Without(ps[2..], "p3") == [] by { assert ps[2..][1..] == []; }
    assert Without(ps[1..], "p3") == [ps[1]] by { assert ps[1..][1..] == ps[2..]; }
    assert Without(ps, "p3") == [ps[0], ps[1]] by { assert ps[1..] == ps[1..]; }
    TwoWaySplitOfHundred();
  }

  /** Once Carol leaves, the other two owe half each. */
  method CarolLeaves() {
    var s := SetUpDinner();
    var b := s.bills[0];
    assert Find(s.bills, "b1") == Some(b);
    s.RemoveParticipant("b1", "p3");
    var ps := ParticipantsAfterRemove(b.participants, 100.0, "p3");
    assert s.bills[0] == b.(participants := ps);
    RemoveThird(b.participants);
  }
}
