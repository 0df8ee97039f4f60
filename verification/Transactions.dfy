/** Transactions, the cross-group pair, and the jobs the handlers make of a request. */
module Transactions {
  import opened PendingLog

  datatype Payload =
    | TransferOf(sender: string, amount: string, coinGroupId: string, recipient: string)
    | AddressOf(userRootPubkey: string, addressType: string)
    | CreationOf(recipient: string, amount: string, targetDate: int)

  datatype Direction = Local | Outbound | Inbound

  datatype Tx = Tx(
    payload: Payload, direction: Direction, otherGroup: string, parentMessageId: string, memo: string, created: int)

  function Base(payload: Payload): Tx {
    Tx(payload, Local, "", "", "", 0)
  }

  /** The two halves of a cross-group transaction name each other's group. */
  function CreateOutbound(base: Tx, otherGroup: string): Tx {
    base.(direction := Outbound, otherGroup := otherGroup)
  }

  function CreateInbound(base: Tx, otherGroup: string): Tx {
    base.(direction := Inbound, otherGroup := otherGroup)
  }

  function TypeOf(p: Payload): TransactionType {
    match p
    case TransferOf(_, _, _, _) => Transfer
    case AddressOf(_, _) => RegisterAddress
    case CreationOf(_, _, _) => Creation
  }

  /** One transaction for group `home`, or a pair from group `home` to group `to`. */
  datatype Job = Single(base: Tx, home: string) | Pair(base: Tx, home: string, to: string)

  function Parts(job: Job): nat {
    if job.Pair? then 2 else 1
  }

  /** The `k`-th transaction of a job; the second one carries the message id of the first. */
  function Part(job: Job, k: nat, firstId: string): Tx
    requires k < Parts(job)
  {
    if job.Single? then job.base
    else if k == 0 then CreateOutbound(job.base, job.to)
    else CreateInbound(job.base, job.home).(parentMessageId := firstId)
  }

  function PartGroup(job: Job, k: nat): string
    requires k < Parts(job)
  {
    if k == 0 then job.home else job.to
  }

  /** A transfer is a pair when the recipient's group is another one. */
  function TransferJob(base: Tx, sessionGroup: string, recipientGroup: string): Job {
    if recipientGroup != "" && recipientGroup != sessionGroup then Pair(base, sessionGroup, recipientGroup)
    else Single(base, sessionGroup)
  }

  /** An address is moved when both groups are given and differ. */
  function RegisterJob(base: Tx, sessionGroup: string, currentGroup: string, newGroup: string): Job {
    if currentGroup != "" && newGroup != "" && currentGroup != newGroup then Pair(base, currentGroup, newGroup)
    else Single(base, sessionGroup)
  }
}
