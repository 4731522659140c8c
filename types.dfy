/** The ledger's records: a bill and the participants who share it
    (src/types/index.ts). Amounts are exact decimals (`real`); dates are
    timestamps supplied by the caller. */
module Types {

  datatype Option<+T> = None | Some(value: T) {
    /** The wrapped value, or `default` when there is none. */
    function GetOr(default: T): T {
      match this
      case Some(v) => v
      case None => default
    }
  }

  /** The strategy that last produced the participants' amounts. */
  datatype SplitType = Equal | Custom | Percentage

  /** Payment progress of a bill, derived from the participants' paid flags. */
  datatype Status = Pending | Partial | Settled

  /** The only supported currency. */
  datatype Currency = USDC

  datatype Participant = Participant(
    id: string,
    name: string,
    address: Option<string>,
    fid: Option<int>,
    avatar: Option<string>,
    amount: real,
    paid: bool)

  /** What a caller supplies when adding a participant: everything except
      the id, the amount and the paid flag. */
  datatype ParticipantInfo = ParticipantInfo(
    name: string,
    address: Option<string>,
    fid: Option<int>,
    avatar: Option<string>)

  datatype Bill = Bill(
    id: string,
    title: string,
    description: Option<string>,
    totalAmount: real,
    currency: Currency,
    createdBy: string,
    createdAt: int,
    participants: seq<Participant>,
    splitType: SplitType,
    status: Status)

  /** A partial bill: each field that is `Some` overrides the bill's own. */
  datatype BillPatch = BillPatch(
    id: Option<string>,
    title: Option<string>,
    description: Option<Option<string>>,
    totalAmount: Option<real>,
    currency: Option<Currency>,
    createdBy: Option<string>,
    createdAt: Option<int>,
    participants: Option<seq<Participant>>,
    splitType: Option<SplitType>,
    status: Option<Status>)

  /** The patch that changes nothing. */
  const NoChanges := BillPatch(None, None, None, None, None, None, None, None, None, None)
}
