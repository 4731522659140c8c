/** The pure transforms inside the store's actions (src/lib/store.ts): the
    `map`, `filter`, `find`, `every` and `some` expressions that compute a
    bill's new participant list and status, and the list-wide updates that
    `updateBill` and `deleteBill` write back. */
module BillOps {
  import opened Types
  import Utils

  // ---------------------------------------------------------------------
  // Participant lists
  // ---------------------------------------------------------------------

  /** Everybody now owes `amount`, every other field kept (the re-split
      at src/lib/store.ts:96-99, 117-120 and 167-170). */
  function WithAmount(ps: seq<Participant>, amount: real): (r: seq<Participant>)
    ensures |r| == |ps|
    ensures forall i :: 0 <= i < |ps| ==> r[i] == ps[i].(amount := amount)
  {
    if ps == [] then [] else [ps[0].(amount := amount)] + WithAmount(ps[1..], amount)
  }

  /** The participants whose id differs, in their order (the filter at
      src/lib/store.ts:108-110). */
  function Without(ps: seq<Participant>, id: string): (r: seq<Participant>)
    ensures forall p :: p in r <==> p in ps && p.id != id
    ensures |r| <= |ps|
    ensures (forall p :: p in ps ==> p.id != id) ==> r == ps
  {
    if ps == [] then []
    else if ps[0].id == id then Without(ps[1..], id)
    else [ps[0]] + Without(ps[1..], id)
  }

  /** Filtering distributes over concatenation, so the participants that
      stay keep their relative order and each appears as often as before. */
  lemma {:induction false} WithoutAppend(a: seq<Participant>, b: seq<Participant>, id: string)
    ensures Without(a + b, id) == Without(a, id) + Without(b, id)
  {
    if a == [] {
      assert a + b == b;
    } else {
      assert (a + b)[0] == a[0] && (a + b)[1..] == a[1..] + b;
      WithoutAppend(a[1..], b, id);
    }
  }

  /** The participants with id `id` replaced by `f` of themselves, all others
      kept, in place (the per-participant updates at src/lib/store.ts:131-133
      and 145-147). */
  function UpdateWhere(ps: seq<Participant>, id: string, f: Participant -> Participant): (r: seq<Participant>)
    ensures |r| == |ps|
    ensures forall i :: 0 <= i < |ps| ==> r[i] == if ps[i].id == id then f(ps[i]) else ps[i]
  {
    if ps == [] then []
    else [if ps[0].id == id then f(ps[0]) else ps[0]] + UpdateWhere(ps[1..], id, f)
  }

  /** The matching participants now owe `amount`; nothing else changes
      (src/lib/store.ts:131-133). */
  function WithAmountFor(ps: seq<Participant>, id: string, amount: real): (r: seq<Participant>)
    ensures |r| == |ps|
    ensures forall i :: 0 <= i < |ps| ==>
      r[i].amount == (if ps[i].id == id then amount else ps[i].amount) &&
      r[i] == ps[i].(amount := r[i].amount)
  {
    UpdateWhere(ps, id, (p: Participant) => p.(amount := amount))
  }

  /** The matching participants' paid flag is now `paid`; nothing else
      changes, amounts included (src/lib/store.ts:145-147). */
  function WithPaidFor(ps: seq<Participant>, id: string, paid: bool): (r: seq<Participant>)
    ensures |r| == |ps|
    ensures forall i :: 0 <= i < |ps| ==>
      r[i].paid == (if ps[i].id == id then paid else ps[i].paid) &&
      r[i] == ps[i].(paid := r[i].paid)
  {
    UpdateWhere(ps, id, (p: Participant) => p.(paid := paid))
  }

  /** Every participant of the list owes the equal share of `total`. */
  predicate SplitEvenly(ps: seq<Participant>, total: real) {
    forall i :: 0 <= i < |ps| ==> ps[i].amount == Utils.CalculateEqualSplit(total, |ps|)
  }

  /** The participants re-split equally over `total`, as `addParticipant`,
      `removeParticipant` and `splitEqually` do. */
  function EqualSplit(ps: seq<Participant>, total: real): (r: seq<Participant>)
    ensures |r| == |ps| && SplitEvenly(r, total)
    ensures forall i :: 0 <= i < |ps| ==> r[i].(amount := ps[i].amount) == ps[i]
  {
    WithAmount(ps, Utils.CalculateEqualSplit(total, |ps|))
  }

  /** Splitting equally a second time changes nothing. */
  lemma EqualSplitIdempotent(ps: seq<Participant>, total: real)
    ensures EqualSplit(EqualSplit(ps, total), total) == EqualSplit(ps, total)
  {
  }

  /** A participant list that is already split evenly is left as it is. */
  lemma EqualSplitOfEven(ps: seq<Participant>, total: real)
    requires SplitEvenly(ps, total)
    ensures EqualSplit(ps, total) == ps
  {
  }

  /** A new participant: the caller's details, a fresh id, nothing owed and
      not paid. */
  function NewParticipant(info: ParticipantInfo, id: string): (p: Participant)
    ensures p.id == id && p.name == info.name && p.address == info.address
    ensures p.fid == info.fid && p.avatar == info.avatar
    ensures p.amount == 0.0 && !p.paid
  {
    Participant(id, info.name, info.address, info.fid, info.avatar, 0.0, false)
  }

  /** `addParticipant`'s new list: the newcomer appended, then everybody
      re-split equally over the new head count. */
  function ParticipantsAfterAdd(ps: seq<Participant>, total: real, p: Participant): (r: seq<Participant>)
    ensures |r| == |ps| + 1
    ensures SplitEvenly(r, total)
    ensures r[|ps|] == p.(amount := Utils.CalculateEqualSplit(total, |ps| + 1))
    ensures forall i :: 0 <= i < |ps| ==>
      r[i].id == ps[i].id && r[i].name == ps[i].name && r[i].paid == ps[i].paid &&
      r[i] == ps[i].(amount := Utils.CalculateEqualSplit(total, |ps| + 1))
  {
    var r := EqualSplit(ps + [p], total);
    assert forall i :: 0 <= i < |ps| ==> (ps + [p])[i] == ps[i];
    r
  }

  /** `removeParticipant`'s new list: everybody with that id dropped, the
      rest, in their order, re-split equally over their number; an empty
      list when nobody is left (src/lib/store.ts:108-124). */
  function ParticipantsAfterRemove(ps: seq<Participant>, total: real, id: string): (r: seq<Participant>)
    ensures |r| == |Without(ps, id)|
    ensures forall i :: 0 <= i < |r| ==>
      r[i] == Without(ps, id)[i].(amount := Utils.CalculateEqualSplit(total, |r|))
    ensures forall q :: q in r ==> q.id != id
    ensures SplitEvenly(r, total)
    ensures forall p :: p in ps && p.id != id ==>
      p.(amount := Utils.CalculateEqualSplit(total, |r|)) in r
    ensures (forall p :: p in ps ==> p.id != id) ==> r == EqualSplit(ps, total)
  {
    var rest := Without(ps, id);
    var r := if |rest| > 0 then EqualSplit(rest, total) else [];
    assert |r| == |rest|;
    forall q | q in r ensures q.id != id {
      var i :| 0 <= i < |r| && r[i] == q;
      assert q.(amount := rest[i].amount) == rest[i];
    }
    forall p | p in ps && p.id != id
      ensures p.(amount := Utils.CalculateEqualSplit(total, |r|)) in r
    {
      assert p in rest;
      var i :| 0 <= i < |rest| && rest[i] == p;
      assert r[i] == p.(amount := Utils.CalculateEqualSplit(total, |r|));
    }
    r
  }

  // ---------------------------------------------------------------------
  // Status
  // ---------------------------------------------------------------------

  /** Every participant has paid; true of the empty list
      (src/lib/store.ts:149). */
  predicate AllPaid(ps: seq<Participant>) {
    forall i :: 0 <= i < |ps| ==> ps[i].paid
  }

  /** At least one participant has paid; false of the empty list
      (src/lib/store.ts:150). */
  predicate SomePaid(ps: seq<Participant>) {
    exists i :: 0 <= i < |ps| && ps[i].paid
  }

  /** The status markAsPaid writes: settled when everybody has paid,
      otherwise partial when somebody has, otherwise pending
      (src/lib/store.ts:154). */
  function DeriveStatus(ps: seq<Participant>): (s: Status)
    ensures s == Settled <==> AllPaid(ps)
    ensures s == Partial <==> SomePaid(ps) && !AllPaid(ps)
    ensures s == Pending <==> |ps| > 0 && !SomePaid(ps)
    ensures ps == [] ==> s == Settled
  {
    assert ps != [] && AllPaid(ps) ==> SomePaid(ps) by {
      if ps != [] && AllPaid(ps) { assert ps[0].paid; }
    }
    if AllPaid(ps) then Settled else if SomePaid(ps) then Partial else Pending
  }

  /** How many participants have paid. */
  function PaidCount(ps: seq<Participant>): (n: nat)
    ensures n <= |ps|
  {
    if ps == [] then 0 else (if ps[0].paid then 1 else 0) + PaidCount(ps[1..])
  }

  /** The status read off the number of payers: settled when all have paid
      (vacuously so for nobody), pending when nobody has among at least one,
      partial in between. */
  lemma {:induction false} StatusByPaidCount(ps: seq<Participant>)
    ensures DeriveStatus(ps) == Settled <==> PaidCount(ps) == |ps|
    ensures DeriveStatus(ps) == Pending <==> 0 == PaidCount(ps) < |ps|
    ensures DeriveStatus(ps) == Partial <==> 0 < PaidCount(ps) < |ps|
  {
    PaidCountAll(ps);
    PaidCountSome(ps);
  }

  lemma {:induction false} PaidCountAll(ps: seq<Participant>)
    ensures PaidCount(ps) == |ps| <==> AllPaid(ps)
  {
    if ps != [] {
      PaidCountAll(ps[1..]);
      assert AllPaid(ps) <==> ps[0].paid && AllPaid(ps[1..]) by {
        if AllPaid(ps) {
          forall i | 0 <= i < |ps[1..]| ensures ps[1..][i].paid { assert ps[1..][i] == ps[i + 1]; }
        }
        if ps[0].paid && AllPaid(ps[1..]) {
          forall i | 0 <= i < |ps| ensures ps[i].paid { if i > 0 { assert ps[i] == ps[1..][i - 1]; } }
        }
      }
    }
  }

  lemma {:induction false} PaidCountSome(ps: seq<Participant>)
    ensures PaidCount(ps) > 0 <==> SomePaid(ps)
  {
    if ps != [] {
      PaidCountSome(ps[1..]);
      assert SomePaid(ps) <==> ps[0].paid || SomePaid(ps[1..]) by {
        if SomePaid(ps) {
          var i :| 0 <= i < |ps| && ps[i].paid;
          if i > 0 { assert ps[1..][i - 1].paid; }
        }
        if SomePaid(ps[1..]) {
          var i :| 0 <= i < |ps[1..]| && ps[1..][i].paid;
          assert ps[i + 1].paid;
        }
      }
    }
  }

  /** Once every participant has been marked paid, the status is settled;
      once one has been marked unpaid, it is not. */
  lemma MarkAsPaidStatus(ps: seq<Participant>, id: string, paid: bool)
    ensures var r := WithPaidFor(ps, id, paid);
      (paid && (forall p :: p in ps && p.id != id ==> p.paid) ==> DeriveStatus(r) == Settled) &&
      (paid && (exists p :: p in ps && p.id == id) ==> DeriveStatus(r) != Pending) &&
      (!paid && (exists p :: p in ps && p.id == id) ==> DeriveStatus(r) != Settled)
  {
  }

  /** A newcomer has not paid, so after `addParticipant` the flags no longer
      derive `settled`; the action keeps the old status all the same, and a
      settled bill stays marked settled until the next `markAsPaid`. */
  lemma AddedParticipantUnsettles(ps: seq<Participant>, total: real, info: ParticipantInfo, id: string)
    ensures DeriveStatus(ParticipantsAfterAdd(ps, total, NewParticipant(info, id))) != Settled
  {
    var r := ParticipantsAfterAdd(ps, total, NewParticipant(info, id));
    assert !r[|ps|].paid;
  }

  // ---------------------------------------------------------------------
  // Bills and the bill list
  // ---------------------------------------------------------------------

  /** The bill with every field the patch sets overridden, the rest kept
      (src/lib/store.ts:58). */
  function Patch(b: Bill, u: BillPatch): (r: Bill)
    ensures u == NoChanges ==> r == b
  {
    Bill(
      u.id.GetOr(b.id),
      u.title.GetOr(b.title),
      u.description.GetOr(b.description),
      u.totalAmount.GetOr(b.totalAmount),
      u.currency.GetOr(b.currency),
      u.createdBy.GetOr(b.createdBy),
      u.createdAt.GetOr(b.createdAt),
      u.participants.GetOr(b.participants),
      u.splitType.GetOr(b.splitType),
      u.status.GetOr(b.status))
  }

  /** Applying the same patch twice is applying it once. */
  lemma PatchIdempotent(b: Bill, u: BillPatch)
    ensures Patch(Patch(b, u), u) == Patch(b, u)
  {
  }

  /** A patch of the participant list, the split type and the status only. */
  function ParticipantsPatch(ps: seq<Participant>, splitType: Option<SplitType>, status: Option<Status>): (u: BillPatch)
    ensures forall b :: Patch(b, u) == b.(participants := ps, splitType := splitType.GetOr(b.splitType),
                                          status := status.GetOr(b.status))
  {
    NoChanges.(participants := Some(ps), splitType := splitType, status := status)
  }

  /** The first bill with that id, if any (the lookup at
      src/lib/store.ts:80). */
  function Find(bills: seq<Bill>, id: string): (r: Option<Bill>)
    ensures r.None? <==> forall i :: 0 <= i < |bills| ==> bills[i].id != id
    ensures r.Some? ==> r.value in bills && r.value.id == id
  {
    if bills == [] then None
    else if bills[0].id == id then Some(bills[0])
    else Find(bills[1..], id)
  }

  /** What `find` returns is the bill at the first position with that id. */
  lemma {:induction false} FindFirst(bills: seq<Bill>, id: string)
    requires Find(bills, id).Some?
    ensures exists i :: FirstWithId(bills, id, i) && bills[i] == Find(bills, id).value
  {
    if bills[0].id == id {
      assert FirstWithId(bills, id, 0);
    } else {
      FindFirst(bills[1..], id);
      var i :| FirstWithId(bills[1..], id, i) && bills[1..][i] == Find(bills, id).value;
      assert FirstWithId(bills, id, i + 1) by {
        forall j | 0 <= j < i + 1 ensures bills[j].id != id {
          if j > 0 { assert bills[j] == bills[1..][j - 1]; }
        }
      }
    }
  }

  /** `i` is the first position in `bills` whose bill has that id. */
  predicate FirstWithId(bills: seq<Bill>, id: string, i: int) {
    0 <= i < |bills| && bills[i].id == id && forall j :: 0 <= j < i ==> bills[j].id != id
  }

  /** Every bill with that id patched, all others kept, in place
      (src/lib/store.ts:57-59). */
  function PatchWhere(bills: seq<Bill>, id: string, u: BillPatch): (r: seq<Bill>)
    ensures |r| == |bills|
    ensures forall i :: 0 <= i < |bills| ==>
      r[i] == if bills[i].id == id then Patch(bills[i], u) else bills[i]
  {
    if bills == [] then []
    else [if bills[0].id == id then Patch(bills[0], u) else bills[0]] + PatchWhere(bills[1..], id, u)
  }

  /** The bills whose id differs, in their order (src/lib/store.ts:69). */
  function DropWhere(bills: seq<Bill>, id: string): (r: seq<Bill>)
    ensures forall b :: b in r <==> b in bills && b.id != id
    ensures |r| <= |bills|
    ensures (forall i :: 0 <= i < |bills| ==> bills[i].id != id) ==> r == bills
  {
    if bills == [] then []
    else if bills[0].id == id then DropWhere(bills[1..], id)
    else [bills[0]] + DropWhere(bills[1..], id)
  }

  /** Dropping distributes over concatenation, so the bills that stay keep
      their relative order. */
  lemma {:induction false} DropWhereAppend(a: seq<Bill>, b: seq<Bill>, id: string)
    ensures DropWhere(a + b, id) == DropWhere(a, id) + DropWhere(b, id)
  {
    if a == [] {
      assert a + b == b;
    } else {
      assert (a + b)[0] == a[0] && (a + b)[1..] == a[1..] + b;
      DropWhereAppend(a[1..], b, id);
    }
  }

  /** The current bill, patched when it has that id, otherwise as it was
      (src/lib/store.ts:60-63). */
  function PatchCurrent(cur: Option<Bill>, id: string, u: BillPatch): (r: Option<Bill>)
    ensures r.Some? <==> cur.Some?
    ensures cur.Some? && cur.value.id != id ==> r == cur
  {
    if cur.Some? && cur.value.id == id then Some(Patch(cur.value, u)) else cur
  }

  // ---------------------------------------------------------------------
  // Uniqueness of ids
  // ---------------------------------------------------------------------

  predicate UniqueParticipantIds(ps: seq<Participant>) {
    forall i, j :: 0 <= i < j < |ps| ==> ps[i].id != ps[j].id
  }

  predicate UniqueBillIds(bills: seq<Bill>) {
    forall i, j :: 0 <= i < j < |bills| ==> bills[i].id != bills[j].id
  }

  /** No two bills share an id, and no two participants of one bill do. */
  predicate WellFormed(bills: seq<Bill>) {
    UniqueBillIds(bills) &&
    forall i :: 0 <= i < |bills| ==> UniqueParticipantIds(bills[i].participants)
  }

  /** With unique ids, looking a bill up by its own id finds that bill. */
  lemma FindUnique(bills: seq<Bill>, i: int)
    requires UniqueBillIds(bills) && 0 <= i < |bills|
    ensures Find(bills, bills[i].id) == Some(bills[i])
  {
  }

  /** Appending a participant whose id is new keeps ids unique, and so does
      re-splitting, which keeps every id in place. */
  lemma AddKeepsUnique(ps: seq<Participant>, total: real, p: Participant)
    requires UniqueParticipantIds(ps)
    requires forall q :: q in ps ==> q.id != p.id
    ensures UniqueParticipantIds(ParticipantsAfterAdd(ps, total, p))
  {
  }

  /** Removing a participant keeps the remaining ids unique. */
  lemma {:induction false} WithoutKeepsUnique(ps: seq<Participant>, id: string)
    requires UniqueParticipantIds(ps)
    ensures UniqueParticipantIds(Without(ps, id))
  {
    if ps != [] {
      TailUnique(ps);
      WithoutKeepsUnique(ps[1..], id);
      if ps[0].id != id {
        var rest := Without(ps[1..], id);
        forall q | q in rest ensures q.id != ps[0].id {
          var k :| 0 <= k < |ps[1..]| && ps[1..][k] == q;
          assert ps[k + 1] == q;
        }
        ConsUnique(ps[0], rest);
      }
    }
  }

  lemma TailUnique(ps: seq<Participant>)
    requires ps != [] && UniqueParticipantIds(ps)
    ensures UniqueParticipantIds(ps[1..])
  {
  }

  lemma ConsUnique(p: Participant, rest: seq<Participant>)
    requires UniqueParticipantIds(rest) && forall q :: q in rest ==> q.id != p.id
    ensures UniqueParticipantIds([p] + rest)
  {
    var r := [p] + rest;
    forall i, j | 0 <= i < j < |r| ensures r[i].id != r[j].id {
      assert r[j] == rest[j - 1];
      if i == 0 { assert r[j] in rest; } else { assert r[i] == rest[i - 1]; }
    }
  }

  lemma {:induction false} RemoveKeepsUnique(ps: seq<Participant>, total: real, id: string)
    requires UniqueParticipantIds(ps)
    ensures UniqueParticipantIds(ParticipantsAfterRemove(ps, total, id))
  {
    WithoutKeepsUnique(ps, id);
  }

  /** A new list with the same ids in the same places has unique ids when
      the old one had. */
  lemma SameIdsKeepUnique(ps: seq<Participant>, qs: seq<Participant>)
    requires UniqueParticipantIds(ps) && |qs| == |ps|
    requires forall i :: 0 <= i < |ps| ==> qs[i].id == ps[i].id
    ensures UniqueParticipantIds(qs)
  {
  }

  /** Dropping bills keeps the remaining ids unique. */
  lemma {:induction false} DropKeepsWellFormed(bills: seq<Bill>, id: string)
    requires WellFormed(bills)
    ensures WellFormed(DropWhere(bills, id))
  {
    if bills != [] {
      TailWellFormed(bills);
      DropKeepsWellFormed(bills[1..], id);
      if bills[0].id != id {
        var rest := DropWhere(bills[1..], id);
        forall c | c in rest ensures c.id != bills[0].id {
          var k :| 0 <= k < |bills[1..]| && bills[1..][k] == c;
          assert bills[k + 1] == c;
        }
        ConsWellFormed(bills[0], rest);
      }
    }
  }

  lemma TailWellFormed(bills: seq<Bill>)
    requires bills != [] && WellFormed(bills)
    ensures WellFormed(bills[1..])
  {
    var tail := bills[1..];
    forall i, j | 0 <= i < j < |tail| ensures tail[i].id != tail[j].id {
      assert tail[i] == bills[i + 1] && tail[j] == bills[j + 1];
    }
    forall i | 0 <= i < |tail| ensures UniqueParticipantIds(tail[i].participants) {
      assert tail[i] == bills[i + 1];
    }
  }

  lemma ConsWellFormed(b: Bill, rest: seq<Bill>)
    requires WellFormed(rest) && UniqueParticipantIds(b.participants)
    requires forall c :: c in rest ==> c.id != b.id
    ensures WellFormed([b] + rest)
  {
    var r := [b] + rest;
    forall i, j | 0 <= i < j < |r| ensures r[i].id != r[j].id {
      assert r[j] == rest[j - 1];
      if i == 0 { assert r[j] in rest; } else { assert r[i] == rest[i - 1]; }
    }
    forall i | 0 <= i < |r| ensures UniqueParticipantIds(r[i].participants) {
      if i > 0 { assert r[i] == rest[i - 1]; }
    }
  }

  /** A patch that keeps the id and gives a bill unique participant ids. */
  predicate SafePatch(u: BillPatch) {
    u.id.None? && (u.participants.Some? ==> UniqueParticipantIds(u.participants.value))
  }

  /** `updateBill` with a safe patch keeps ids unique. */
  lemma PatchKeepsWellFormed(bills: seq<Bill>, id: string, u: BillPatch)
    requires WellFormed(bills) && SafePatch(u)
    ensures WellFormed(PatchWhere(bills, id, u))
  {
  }
}
