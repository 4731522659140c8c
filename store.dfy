/** The bill store of src/lib/store.ts: the list of bills, most recent
    first, and a separate copy of the bill the user is looking at. Every
    action that changes a bill reads it with `find` and writes it back
    through `UpdateBill`, the one write primitive. An unknown bill id makes
    an action do nothing. */
module Store {
  import opened Types
  import opened BillOps

  class BillStore {
    var bills: seq<Bill>
    var currentBill: Option<Bill>

    /** Bill ids are unique, and so are participant ids within a bill. */
    ghost predicate Valid()
      reads this
    {
      WellFormed(bills)
    }

    /** The empty store. */
    constructor ()
      ensures bills == [] && currentBill == None
      ensures Valid()
    {
      bills := [];
      currentBill := None;
    }

    /** `createBill`: a new pending bill with no participants and an equal
        split goes to the front of the list and becomes the current bill.
        Title and amount are not checked here; `id` stands for a freshly
        generated id and `createdAt` for the clock. */
    method CreateBill(title: string, totalAmount: real, description: Option<string>, id: string, createdAt: int)
      returns (b: Bill)
      requires forall i :: 0 <= i < |bills| ==> bills[i].id != id
      modifies this
      ensures b.id == id && b.title == title && b.description == description
      ensures b.totalAmount == totalAmount && b.currency == USDC
      ensures b.createdBy == "me" && b.createdAt == createdAt
      ensures b.participants == [] && b.splitType == Equal && b.status == Pending
      ensures bills == [b] + old(bills) && currentBill == Some(b)
      ensures old(Valid()) ==> Valid()
    {
      b := Bill(id, title, description, totalAmount, USDC, "me", createdAt, [], Equal, Pending);
      bills := [b] + bills;
      currentBill := Some(b);
      assert old(Valid()) ==> Valid() by {
        if old(Valid()) {
          forall i, j | 0 <= i < j < |bills| ensures bills[i].id != bills[j].id {
            if i > 0 { assert bills[i] == old(bills)[i - 1]; }
            assert bills[j] == old(bills)[j - 1];
          }
          forall i | 0 <= i < |bills| ensures UniqueParticipantIds(bills[i].participants) {
            if i > 0 { assert bills[i] == old(bills)[i - 1]; }
          }
        }
      }
    }

    /** `updateBill`: merges `u` into every bill with that id, and into the
        current bill when it has that id; entries with other ids stay. */
    method UpdateBill(billId: string, u: BillPatch)
      modifies this
      ensures bills == PatchWhere(old(bills), billId, u)
      ensures currentBill == PatchCurrent(old(currentBill), billId, u)
      ensures |bills| == |old(bills)|
      ensures forall i :: 0 <= i < |bills| && old(bills)[i].id != billId ==> bills[i] == old(bills)[i]
      ensures (forall i :: 0 <= i < |bills| ==> old(bills)[i].id != billId) ==> bills == old(bills)
      ensures forall i :: 0 <= i < |bills| && old(currentBill) == Some(old(bills)[i]) ==>
        currentBill == Some(bills[i])
      ensures old(Valid()) && SafePatch(u) ==> Valid()
    {
      bills := PatchWhere(bills, billId, u);
      currentBill := PatchCurrent(currentBill, billId, u);
      if old(Valid()) && SafePatch(u) {
        PatchKeepsWellFormed(old(bills), billId, u);
      }
      if forall i :: 0 <= i < |bills| ==> old(bills)[i].id != billId {
        assert bills == old(bills);
      }
    }

    /** `deleteBill`: drops every bill with that id, keeping the order of
        the rest, and clears the current bill if it had that id. */
    method DeleteBill(billId: string)
      modifies this
      ensures bills == DropWhere(old(bills), billId)
      ensures forall b :: b in bills ==> b.id != billId
      ensures forall b :: b in old(bills) && b.id != billId ==> b in bills
      ensures currentBill ==
        if old(currentBill).Some? && old(currentBill).value.id == billId then None else old(currentBill)
      ensures (old(currentBill).Some? && old(currentBill).value in old(bills) &&
               old(currentBill).value.id != billId) ==>
        currentBill.Some? && currentBill.value in bills
      ensures old(Valid()) ==> Valid()
    {
      bills := DropWhere(bills, billId);
      if currentBill.Some? && currentBill.value.id == billId {
        currentBill := None;
      }
      if old(Valid()) {
        DropKeepsWellFormed(old(bills), billId);
      }
    }

    /** `setCurrentBill`: replaces the current bill; the list is untouched. */
    method SetCurrentBill(bill: Option<Bill>)
      modifies this
      ensures currentBill == bill && bills == old(bills)
      ensures old(Valid()) ==> Valid()
    {
      currentBill := bill;
    }

    /** `addParticipant`: appends a new unpaid participant with the given
        details and id `participantId` (standing for a freshly generated
        id) to the bill found by `billId`, then re-splits everybody equally;
        the split type and status stay as they were. */
    method AddParticipant(billId: string, info: ParticipantInfo, participantId: string)
      requires var found := Find(bills, billId);
        found.Some? ==> forall p :: p in found.value.participants ==> p.id != participantId
      modifies this
      ensures var found := Find(old(bills), billId);
        if found.None? then bills == old(bills) && currentBill == old(currentBill)
        else
          var ps := ParticipantsAfterAdd(found.value.participants, found.value.totalAmount,
                                         NewParticipant(info, participantId));
          var u := ParticipantsPatch(ps, None, None);
          bills == PatchWhere(old(bills), billId, u) &&
          currentBill == PatchCurrent(old(currentBill), billId, u) &&
          forall i :: 0 <= i < |bills| && old(bills)[i].id == billId ==>
            bills[i] == old(bills)[i].(participants := ps)
      ensures forall i :: 0 <= i < |bills| && old(currentBill) == Some(old(bills)[i]) ==>
        currentBill == Some(bills[i])
      ensures old(Valid()) ==> Valid()
    {
      var found := Find(bills, billId);
      if found.None? {
        return;
      }
      var bill := found.value;
      var ps := ParticipantsAfterAdd(bill.participants, bill.totalAmount, NewParticipant(info, participantId));
      if Valid() {
        AddKeepsUnique(bill.participants, bill.totalAmount, NewParticipant(info, participantId));
      }
      UpdateBill(billId, ParticipantsPatch(ps, None, None));
    }

    /** `removeParticipant`: drops the participant from the bill found by
        `billId` and re-splits the rest equally, even when no participant
        had that id; a bill left with nobody gets the empty list. */
    method RemoveParticipant(billId: string, participantId: string)
      modifies this
      ensures var found := Find(old(bills), billId);
        if found.None? then bills == old(bills) && currentBill == old(currentBill)
        else
          var ps := ParticipantsAfterRemove(found.value.participants, found.value.totalAmount, participantId);
          var u := ParticipantsPatch(ps, None, None);
          bills == PatchWhere(old(bills), billId, u) &&
          currentBill == PatchCurrent(old(currentBill), billId, u) &&
          forall i :: 0 <= i < |bills| && old(bills)[i].id == billId ==>
            bills[i] == old(bills)[i].(participants := ps)
      ensures forall i :: 0 <= i < |bills| && old(currentBill) == Some(old(bills)[i]) ==>
        currentBill == Some(bills[i])
      ensures old(Valid()) ==> Valid()
    {
      var found := Find(bills, billId);
      if found.None? {
        return;
      }
      var bill := found.value;
      var rest := Without(bill.participants, participantId);
      var ps: seq<Participant>;
      if |rest| > 0 {
        ps := EqualSplit(rest, bill.totalAmount);
      } else {
        ps := [];
      }
      assert ps == ParticipantsAfterRemove(bill.participants, bill.totalAmount, participantId);
      if Valid() {
        RemoveKeepsUnique(bill.participants, bill.totalAmount, participantId);
      }
      UpdateBill(billId, ParticipantsPatch(ps, None, None));
    }

    /** `updateParticipantAmount`: overrides the amount of the matching
        participant and marks the split custom; nothing checks that the
        amounts still add up to the total. */
    method UpdateParticipantAmount(billId: string, participantId: string, amount: real)
      modifies this
      ensures var found := Find(old(bills), billId);
        if found.None? then bills == old(bills) && currentBill == old(currentBill)
        else
          var ps := WithAmountFor(found.value.participants, participantId, amount);
          var u := ParticipantsPatch(ps, Some(Custom), None);
          bills == PatchWhere(old(bills), billId, u) &&
          currentBill == PatchCurrent(old(currentBill), billId, u) &&
          forall i :: 0 <= i < |bills| && old(bills)[i].id == billId ==>
            bills[i] == old(bills)[i].(participants := ps, splitType := Custom)
      ensures forall i :: 0 <= i < |bills| && old(currentBill) == Some(old(bills)[i]) ==>
        currentBill == Some(bills[i])
      ensures old(Valid()) ==> Valid()
    {
      var found := Find(bills, billId);
      if found.None? {
        return;
      }
      var bill := found.value;
      var ps := WithAmountFor(bill.participants, participantId, amount);
      if Valid() {
        SameIdsKeepUnique(bill.participants, ps);
      }
      UpdateBill(billId, ParticipantsPatch(ps, Some(Custom), None));
    }

    /** `markAsPaid`: sets the paid flag of the matching participant and
        recomputes the bill's status from all the flags. */
    method MarkAsPaid(billId: string, participantId: string, paid: bool)
      modifies this
      ensures var found := Find(old(bills), billId);
        if found.None? then bills == old(bills) && currentBill == old(currentBill)
        else
          var ps := WithPaidFor(found.value.participants, participantId, paid);
          var u := ParticipantsPatch(ps, None, Some(DeriveStatus(ps)));
          bills == PatchWhere(old(bills), billId, u) &&
          currentBill == PatchCurrent(old(currentBill), billId, u) &&
          forall i :: 0 <= i < |bills| && old(bills)[i].id == billId ==>
            bills[i] == old(bills)[i].(participants := ps, status := DeriveStatus(ps))
      ensures forall i :: 0 <= i < |bills| && old(currentBill) == Some(old(bills)[i]) ==>
        currentBill == Some(bills[i])
      ensures old(Valid()) ==> Valid()
    {
      var found := Find(bills, billId);
      if found.None? {
        return;
      }
      var bill := found.value;
      var ps := WithPaidFor(bill.participants, participantId, paid);
      if Valid() {
        SameIdsKeepUnique(bill.participants, ps);
      }
      UpdateBill(billId, ParticipantsPatch(ps, None, Some(DeriveStatus(ps))));
    }

    /** `splitEqually`: re-splits the bill's participants equally and marks
        the split equal; nothing happens to an unknown bill or to a bill
        without participants. */
    method SplitEqually(billId: string)
      modifies this
      ensures var found := Find(old(bills), billId);
        if found.None? || found.value.participants == [] then
          bills == old(bills) && currentBill == old(currentBill)
        else
          var ps := EqualSplit(found.value.participants, found.value.totalAmount);
          var u := ParticipantsPatch(ps, Some(Equal), None);
          bills == PatchWhere(old(bills), billId, u) &&
          currentBill == PatchCurrent(old(currentBill), billId, u) &&
          forall i :: 0 <= i < |bills| && old(bills)[i].id == billId ==>
            bills[i] == old(bills)[i].(participants := ps, splitType := Equal)
      ensures forall i :: 0 <= i < |bills| && old(currentBill) == Some(old(bills)[i]) ==>
        currentBill == Some(bills[i])
      ensures old(Valid()) ==> Valid()
    {
      var found := Find(bills, billId);
      if found.None? || found.value.participants == [] {
        return;
      }
      var bill := found.value;
      var ps := EqualSplit(bill.participants, bill.totalAmount);
      if Valid() {
        SameIdsKeepUnique(bill.participants, ps);
      }
      UpdateBill(billId, ParticipantsPatch(ps, Some(Equal), None));
    }

    /** `recalculateSplit`: the same as `splitEqually`. */
    method RecalculateSplit(billId: string)
      modifies this
      ensures var found := Find(old(bills), billId);
        if found.None? || found.value.participants == [] then
          bills == old(bills) && currentBill == old(currentBill)
        else
          var ps := EqualSplit(found.value.participants, found.value.totalAmount);
          var u := ParticipantsPatch(ps, Some(Equal), None);
          bills == PatchWhere(old(bills), billId, u) &&
          currentBill == PatchCurrent(old(currentBill), billId, u) &&
          forall i :: 0 <= i < |bills| && old(bills)[i].id == billId ==>
            bills[i] == old(bills)[i].(participants := ps, splitType := Equal)
      ensures forall i :: 0 <= i < |bills| && old(currentBill) == Some(old(bills)[i]) ==>
        currentBill == Some(bills[i])
      ensures old(Valid()) ==> Valid()
    {
      SplitEqually(billId);
    }
  }
}
