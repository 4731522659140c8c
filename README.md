# Splitbase bill ledger in Dafny

A model of the in-memory bill-splitting ledger of Splitbase. The store keeps
a list of bills, most recent first, and a separate copy of the bill the
user is looking at (the current bill). Users create bills, add and remove
participants, split the total equally or override one participant's amount,
and mark participants paid. A bill's status (pending, partial, settled) is
recomputed from the paid flags whenever a flag changes.

Files:

- `types.dfy` (module `Types`): `Participant`, `Bill`, the `SplitType` and
  `Status` enumerations, and `BillPatch`, a partial bill with one optional
  value per field.
- `utils.dfy` (module `Utils`): `Math.round` and rounding to cents, the equal
  share, the amount range check and the shortened wallet address.
- `bill_ops.dfy` (module `BillOps`): the pure `map`/`filter`/`find`/`every`/`some`
  expressions inside the store's actions, as functions, with the lemmas about
  them: re-splitting, the status rule, the list-wide patch and delete, and
  uniqueness of ids.
- `store.dfy` (module `Store`): class `BillStore` with fields `bills` and
  `currentBill` and one method per store action. Every action that changes a
  bill finds it by id and writes it back through `UpdateBill`, as the source
  does. Each method states the new state in terms of the `BillOps` functions.
  Every method that writes a bill back says that a current bill equal to its
  list entry stays equal to it. `DeleteBill` says that a listed current bill
  with another id stays listed. Every method preserves `Valid()`, which says that bill ids are unique and that
  participant ids are unique within each bill.
- `scenarios.dfy` (module `Scenarios`): a dinner of 100 split between three
  diners (33.33 each, status pending). One payment makes the bill partial and
  three make it settled. If one diner leaves, the other two owe 50 each. All
  of this is proved from the store's contracts.

Amounts are exact decimals (`real`). `Math.round(x)` is `(x + 1/2).Floor`, so a
tie goes toward positive infinity.

Behaviour of the code worth knowing:

- `createBill` checks nothing. The empty-title and amount checks live in the
  bill-creation form, which is not part of this model.
- `markAsPaid` on a bill with no participants gives `settled`, because `every`
  on an empty list is true. It does not give pending.
- The status is recomputed only by `markAsPaid`. Adding or removing a
  participant leaves it as it was, so it can disagree with the paid flags.
  For example, a settled bill that gains a participant who has not paid stays
  settled (`BillOps.AddedParticipantUnsettles`).
- Rounding is `Math.round`, whose ties go toward positive infinity. They do not
  go away from zero.

## Model

| member | source | states |
|---|---|---|
| `Utils.Round` | src/lib/utils.ts:30 | `Math.round`: the integer within half of x, ties going up (r - 1/2 <= x < r + 1/2) |
| `Utils.RoundToCents` | src/lib/utils.ts:30 | `Math.round(x*100)/100` is a whole number of cents within half a cent of x |
| `Utils.RoundToCentsIsNearest` | src/lib/utils.ts:30 | no whole number of cents is closer to x than the rounded value |
| `Utils.CalculateEqualSplit` | src/lib/utils.ts:25-31 | 0 for no participants; otherwise a whole number of cents within half a cent of total/participants; with one participant, the total rounded to cents |
| `Utils.EqualSplitNonNegative` | src/lib/utils.ts:25-31 | the share of a non-negative total is non-negative |
| `Utils.ValidateAmount` | src/lib/utils.ts:33-36 | accepts iff the parse is a number (not NaN) with 0 < num <= 1000000 |
| `Utils.ValidateAmountBounds` | src/lib/utils.ts:33-36 | NaN, 0 and 1000000.01 are rejected; 0.01 and 1000000 are accepted |
| `Utils.ShortenAddress` | src/lib/utils.ts:16-19 | "" stays ""; for chars > 0, the first chars+2 characters, "..." and the last min(chars, length) characters; for chars = 0, JS's `slice(-0)` gives the whole address as the tail |
| `Utils.ShortenAddressFrame` | src/lib/utils.ts:18 | a shortened address starts with a prefix of the address, has "..." in the middle and ends with a suffix of it, with the exact length |
| `BillOps.WithAmount` | src/lib/store.ts:96-99 | same length; each participant keeps everything but its amount, which becomes the given amount |
| `BillOps.Without` | src/lib/store.ts:108-110 | keeps exactly the participants whose id differs; the list is unchanged when no participant has the id |
| `BillOps.WithoutAppend` | src/lib/store.ts:108-110 | filtering distributes over concatenation, so the survivors keep their order and multiplicity |
| `BillOps.UpdateWhere` | src/lib/store.ts:131-133 | same length; each participant with the id is replaced by the update of itself, all others are unchanged in place |
| `BillOps.WithAmountFor` | src/lib/store.ts:131-133 | same length; each participant with the id owes the new amount, every other field and every other participant is unchanged |
| `BillOps.WithPaidFor` | src/lib/store.ts:145-147 | same length; each participant with the id has the new paid flag, every other field (amounts included) and every other participant is unchanged |
| `BillOps.EqualSplit` | src/lib/store.ts:162-170 | every participant owes the equal share for the head count; nothing but the amounts changes |
| `BillOps.EqualSplitIdempotent` | src/lib/store.ts:158-176 | splitting equally twice gives the same participants as once |
| `BillOps.EqualSplitOfEven` | src/lib/store.ts:158-176 | a list already split evenly is left unchanged by a re-split |
| `BillOps.NewParticipant` | src/lib/store.ts:83-88 | the new participant carries the caller's details and the fresh id, owes 0 and has not paid |
| `BillOps.ParticipantsAfterAdd` | src/lib/store.ts:90-99 | one more participant; the newcomer is last; everybody owes the share for n+1; existing ids, names and paid flags are kept |
| `BillOps.ParticipantsAfterRemove` | src/lib/store.ts:108-124 | entry by entry the survivors of the filter, in order, each owing the share for their number; empty when nobody survives; no participant with the id remains; even when the id was absent the list is re-split |
| `BillOps.DeriveStatus` | src/lib/store.ts:149-154 | settled iff every participant paid (also for none); partial iff some but not all paid; pending iff there are participants and none paid |
| `BillOps.StatusByPaidCount` | src/lib/store.ts:149-154 | the status read off the number of payers: all of them is settled, none of at least one is pending, otherwise partial |
| `BillOps.PaidCountAll` | src/lib/store.ts:149 | the payer count equals the head count iff `every` paid holds |
| `BillOps.PaidCountSome` | src/lib/store.ts:150 | the payer count is positive iff `some` paid holds |
| `BillOps.MarkAsPaidStatus` | src/lib/store.ts:145-154 | marking the last unpaid participant paid settles the bill; marking an existing participant paid makes it not pending; marking one unpaid makes it not settled |
| `BillOps.AddedParticipantUnsettles` | src/lib/store.ts:83-101 | after a participant is added, the flags no longer derive settled, although `addParticipant` keeps the old status |
| `BillOps.Patch` | src/lib/store.ts:58 | merging the patch that sets nothing gives the same bill |
| `BillOps.PatchIdempotent` | src/lib/store.ts:58 | merging the same updates twice is merging them once |
| `BillOps.ParticipantsPatch` | src/lib/store.ts:101 | the patch the participant actions pass to `updateBill` changes only the participants, and optionally the split type and the status |
| `BillOps.Find` | src/lib/store.ts:80 | finds nothing iff no bill has the id; what it finds is a listed bill with that id |
| `BillOps.FindFirst` | src/lib/store.ts:80 | what `find` returns is the bill at the first position with that id |
| `BillOps.FindUnique` | src/lib/store.ts:80 | with unique ids, looking up a bill's own id finds that bill |
| `BillOps.PatchWhere` | src/lib/store.ts:57-59 | same length; bills with the id are merged with the updates, all others are unchanged |
| `BillOps.DropWhere` | src/lib/store.ts:69 | keeps exactly the bills whose id differs; unchanged when no bill has the id |
| `BillOps.DropWhereAppend` | src/lib/store.ts:69 | filtering distributes over concatenation, so the remaining bills keep their relative order |
| `BillOps.PatchCurrent` | src/lib/store.ts:60-63 | the current bill stays present or absent, and is unchanged unless its id matches |
| `BillOps.AddKeepsUnique` | src/lib/store.ts:83-99 | adding a participant with a fresh id keeps participant ids unique |
| `BillOps.WithoutKeepsUnique` | src/lib/store.ts:108-110 | removing participants keeps the remaining ids unique |
| `BillOps.RemoveKeepsUnique` | src/lib/store.ts:108-124 | the list after a removal has unique ids |
| `BillOps.SameIdsKeepUnique` | src/lib/store.ts:131-133 | a list with the same ids in the same places keeps ids unique |
| `BillOps.DropKeepsWellFormed` | src/lib/store.ts:69 | deleting bills keeps bill ids and participant ids unique |
| `BillOps.PatchKeepsWellFormed` | src/lib/store.ts:55-65 | an update that keeps the id and has unique participant ids keeps the store well formed |
| `Store.BillStore.constructor` | src/lib/store.ts:30-31 | the store starts with no bills and no current bill |
| `Store.BillStore.CreateBill` | src/lib/store.ts:33-53 | prepends exactly one bill (empty participants, equal split, pending, createdBy "me", USDC) and makes it current; earlier bills keep their order; title and amount are not checked |
| `Store.BillStore.UpdateBill` | src/lib/store.ts:55-65 | patches every bill with the id and nothing else; an unknown id leaves the list unchanged; patches the current bill iff its id matches, so a current bill equal to its entry stays equal |
| `Store.BillStore.DeleteBill` | src/lib/store.ts:67-73 | no bill with the id remains, every other bill does, in order; the current bill is cleared iff it had the id, and a listed current bill with another id stays listed |
| `Store.BillStore.SetCurrentBill` | src/lib/store.ts:75-77 | replaces the current bill and leaves the list alone |
| `Store.BillStore.AddParticipant` | src/lib/store.ts:79-102 | unknown bill: no change; otherwise the bill's participants become the appended and re-split list, with split type and status untouched |
| `Store.BillStore.RemoveParticipant` | src/lib/store.ts:104-125 | unknown bill: no change; otherwise the participants become the filtered and re-split list (empty if none remain), with split type and status untouched |
| `Store.BillStore.UpdateParticipantAmount` | src/lib/store.ts:127-139 | unknown bill: no change; otherwise only the matching participants' amounts change and the split type becomes custom; status untouched; no check of the sum |
| `Store.BillStore.MarkAsPaid` | src/lib/store.ts:141-156 | unknown bill: no change; otherwise only the matching participant's flag changes and the status is recomputed from all the flags |
| `Store.BillStore.SplitEqually` | src/lib/store.ts:158-176 | no change for an unknown bill or one without participants; otherwise amounts become the equal share and the split type becomes equal |
| `Store.BillStore.RecalculateSplit` | src/lib/store.ts:178-180 | has the same effect as `SplitEqually`, including that a current bill equal to its entry stays equal |
| `Scenarios.ThreeWaySplitOfHundred` | src/lib/utils.ts:29-30 | 100 split three ways is 33.33 each |
| `Scenarios.TwoWaySplitOfHundred` | src/lib/utils.ts:29-30 | 100 split two ways is 50 each |
| `Scenarios.SetUpDinner` | src/lib/store.ts:33-102 | a bill of 100 with three added diners: each owes 33.33, none has paid, the split is equal, the status pending, and it is the current bill |
| `Scenarios.PayDiner` | src/lib/store.ts:141-156 | on the dinner bill, one diner's payment sets that flag only and recomputes the status |
| `Scenarios.RemoveThird` | src/lib/store.ts:104-125 | removing the third of three diners from a bill of 100 leaves two who owe 50 each |

## Left out

- Persistence: the `persist` middleware and its storage key are storage I/O. The in-memory state is modelled directly.
- The zustand `create`/`set`/`get` machinery. The state is the two fields of `BillStore`, and `get().updateBill` is a call to `UpdateBill`.
- `generateId` is random. Every new bill or participant id is a parameter of the method that creates it, with a precondition that no bill (or no participant of that bill) already uses it.
- `new Date()` is the clock. It becomes the `createdAt` parameter, an integer timestamp.
- `formatUSDC` and `cn` only wrap foreign library calls (`Intl.NumberFormat`, `clsx`).
- `parseFloat` is library parsing. `ValidateAmount` takes the parsed value as an `Option<real>`, with `None` for NaN. `parseFloat` can also return +Infinity or -Infinity, which a `real` cannot hold. Such a parse is also given as `None`, and the source rejects it too (it fails the upper bound or the lower bound).
- Utils.CalculateEqualSplit: the division and the scaling by 100 are exact, where JavaScript uses doubles. A quotient that is a tie only in exact arithmetic, or only in floating point, can round differently in the source.
- Utils.ShortenAddress: takes the address as a string. The source's falsy check also maps a missing address to "".
- Utils.ShortenAddress: Dafny's `string` is a sequence of Unicode scalar values, while JavaScript's `slice` counts UTF-16 code units. For an address that holds a character outside the Basic Multilingual Plane (an emoji, say), the source cuts at other places, and it can split such a character in two. Addresses are free text typed by the user, so this case can occur. The model matches the source only for addresses made of Basic Multilingual Plane characters.
- The React components hold the bill-creation form's guard (trimmed title non-empty, `validateAmount` of the typed amount), the participant form and all display arithmetic. They are user interface, so rejecting an empty title or an amount of 2000000 at creation is not part of this model.
- The webhook route only logs events. The wallet providers, layout and static configuration are wiring.
- `SplitSummary` and `PaymentRequest` in src/types/index.ts are not used by the store.
- The source never checks that ids are unique. `Valid()` is a property the methods preserve when it holds (`UpdateBill` only for a patch that keeps the id and has unique participant ids). It is never demanded of a caller.
