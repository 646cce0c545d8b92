/**
 * The rewards database, the transfer ledger behind it, and what each reward action does to them:
 * one specification function per server action of app/actions/rewards.ts.
 */
module RewardModel {
  import opened Collections
  import opened PoolKeys

  const MAX_PAYOUT_RETRIES := 5

  datatype Status = Pending | Approved | Paid | Declined

  datatype Payout = NotStarted | Failed | Succeeded

  datatype Submission = Submission(program: Id, org: Id, researcher: Id, accepted: bool)

  datatype Profile = Profile(account: Option<string>, payoutsEnabled: bool, threshold: int)

  datatype Reward = Reward(
    submission: Id, org: Id, program: Id, researcher: Id, amount: int, currency: string,
    status: Status, approvedBy: Option<Id>, payout: Payout, transfer: Option<string>, held: bool, retries: nat)

  datatype Split = Split(
    reward: Id, researcher: Id, share: real, amount: Option<int>, payout: Payout, transfer: Option<string>)

  /** What a transfer pays for: the rewards of a pool, or one split of a reward. */
  datatype Purpose = ForPool(pool: set<Id>) | ForSplit(reward: Id, split: Id)

  datatype Transfer = Transfer(account: string, cents: int, currency: string, purpose: Purpose)

  /** The payment provider's transfers by idempotency key; a transfer is identified by its key. */
  type Ledger = map<string, Transfer>

  /** How a transfer request ends: not made; made, but the caller sees an error; made and answered. */
  datatype Outcome = Refused | Unanswered | Sent

  /** minted holds the id of every split row ever inserted, deleted ones included. */
  datatype Db = Db(
    owners: map<Id, Id>, admins: set<Id>, submissions: map<Id, Submission>, profiles: map<Id, Profile>,
    rewards: map<Id, Reward>, splits: map<Id, Split>, minted: set<Id>, totals: map<Id, int>, ledger: Ledger)

  // ----- queries

  predicate IsOwner(db: Db, user: Id, org: Id)
  {
    org in db.owners && db.owners[org] == user
  }

  predicate Connected(db: Db, researcher: Id)
  {
    researcher in db.profiles &&
    var p := db.profiles[researcher];
    p.account.Some? && p.account.value != "" && p.payoutsEnabled
  }

  function SplitsOf(db: Db, id: Id): set<Id>
  {
    set s | s in db.splits && db.splits[s].reward == id
  }

  predicate HasSplits(db: Db, id: Id)
  {
    SplitsOf(db, id) != {}
  }

  predicate Poolable(db: Db, id: Id)
  {
    id in db.rewards && db.rewards[id].status == Approved && !HasSplits(db, id)
  }

  predicate InGroup(db: Db, id: Id, researcher: Id, currency: string)
  {
    id in db.rewards && db.rewards[id].researcher == researcher && db.rewards[id].currency == currency
  }

  /**
   * Every approved reward of one researcher and currency without splits, of whatever organization: the query has no
   * organization filter of its own. Row-level security, not modelled, narrows it to organizations the caller owns.
   */
  function Pool(db: Db, researcher: Id, currency: string): set<Id>
  {
    set id | id in db.rewards && InGroup(db, id, researcher, currency) && Poolable(db, id)
  }

  function Amounts(rows: map<Id, Reward>): Id -> int
  {
    id => if id in rows then rows[id].amount else 0
  }

  function Programs(rows: map<Id, Reward>): Id -> Id
  {
    id => if id in rows then rows[id].program else ""
  }

  ghost function PoolTotal(db: Db, researcher: Id, currency: string): int
  {
    Sum(Pool(db, researcher, currency), Amounts(db.rewards))
  }

  // ----- the ledger

  /** A request with a known key returns the transfer made under it; otherwise one is added. */
  function CreateTransfer(ledger: Ledger, key: string, t: Transfer, outcome: Outcome): Ledger
  {
    if outcome.Refused? || key in ledger then ledger else ledger[key := t]
  }

  // ----- propose, approve, decline

  predicate MayPropose(db: Db, user: Id, submission: Id, amount: int)
  {
    submission in db.submissions &&
    (IsOwner(db, user, db.submissions[submission].org) || user in db.admins) &&
    db.submissions[submission].accepted && amount > 0 &&
    forall id :: id in db.rewards ==> db.rewards[id].submission != submission
  }

  function Propose(db: Db, user: Id, submission: Id, newId: Id, amount: int, currency: string): Db
  {
    if MayPropose(db, user, submission, amount) then
      var sub := db.submissions[submission];
      db.(rewards := db.rewards[newId := Reward(submission, sub.org, sub.program, sub.researcher, amount, currency,
                                                Pending, None, NotStarted, None, false, 0)])
    else db
  }

  /** There is no check of the status here: any reward of the owner becomes approved. */
  function Approve(db: Db, user: Id, id: Id): Db
  {
    if id in db.rewards && IsOwner(db, user, db.rewards[id].org) then
      db.(rewards := db.rewards[id := db.rewards[id].(status := Approved, approvedBy := Some(user))])
    else db
  }

  /** Nor here. */
  function Decline(db: Db, user: Id, id: Id, reasonGiven: bool): Db
  {
    if reasonGiven && id in db.rewards && IsOwner(db, user, db.rewards[id].org) then
      db.(rewards := db.rewards[id := db.rewards[id].(status := Declined)])
    else db
  }

  // ----- paying a pool

  datatype Refusal = NotFound | NotOwner | NotApproved | RetriesExhausted | SplitsConfigured | NotConnected

  function PayRefusal(db: Db, user: Id, id: Id): Option<Refusal>
  {
    if id !in db.rewards then Some(NotFound)
    else if !IsOwner(db, user, db.rewards[id].org) then Some(NotOwner)
    else if db.rewards[id].status != Approved then Some(NotApproved)
    else if db.rewards[id].retries >= MAX_PAYOUT_RETRIES then Some(RetriesExhausted)
    else if HasSplits(db, id) then Some(SplitsConfigured)
    else if !Connected(db, db.rewards[id].researcher) then Some(NotConnected)
    else None
  }

  datatype PayResult = Rejected(reason: Refusal) | BelowThreshold | PaidTogether(count: nat) | TransferFailed

  /** What a pool payment does to each row of the pool. */
  datatype Change = Hold | Settle(key: string) | Bounce

  function RowAfter(row: Reward, change: Change): Reward
  {
    match change
    case Hold => row.(held := true)
    case Settle(key) => row.(status := Paid, payout := Succeeded, transfer := Some(key), held := false)
    case Bounce => row.(payout := Failed, retries := row.retries + 1)
  }

  function Rewrite(rows: map<Id, Reward>, pool: set<Id>, change: Change): map<Id, Reward>
  {
    map id | id in rows :: if id in pool then RowAfter(rows[id], change) else rows[id]
  }

  ghost function ChangeOf(db: Db, researcher: Id, currency: string, outcome: Outcome): Change
    requires researcher in db.profiles
  {
    if PoolTotal(db, researcher, currency) < db.profiles[researcher].threshold then Hold
    else if outcome.Sent? then Settle(PoolKey(Pool(db, researcher, currency)))
    else Bounce
  }

  ghost function PoolTransfer(db: Db, researcher: Id, currency: string): Transfer
    requires Connected(db, researcher)
  {
    Transfer(db.profiles[researcher].account.value, 100 * PoolTotal(db, researcher, currency), currency,
             ForPool(Pool(db, researcher, currency)))
  }

  ghost function PayPool(db: Db, researcher: Id, currency: string, outcome: Outcome): Db
    requires Connected(db, researcher)
  {
    var pool := Pool(db, researcher, currency);
    var change := ChangeOf(db, researcher, currency, outcome);
    db.(rewards := Rewrite(db.rewards, pool, change),
        totals := if change.Settle? then AddByProgram(db.totals, db.rewards, pool) else db.totals,
        ledger := if change.Hold? then db.ledger
                  else CreateTransfer(db.ledger, PoolKey(pool), PoolTransfer(db, researcher, currency), outcome))
  }

  /** Each program's total grows by the amounts of its own rewards in the pool. */
  ghost function AddByProgram(totals: map<Id, int>, rows: map<Id, Reward>, pool: set<Id>): map<Id, int>
  {
    map p | p in totals :: totals[p] + Sum(Part(pool, Programs(rows), p), Amounts(rows))
  }

  ghost function MarkPaid(db: Db, user: Id, id: Id, outcome: Outcome): Db
  {
    if PayRefusal(db, user, id).Some? then db
    else PayPool(db, db.rewards[id].researcher, db.rewards[id].currency, outcome)
  }

  ghost function MarkPaidResult(db: Db, user: Id, id: Id, outcome: Outcome): PayResult
  {
    var refusal := PayRefusal(db, user, id);
    if refusal.Some? then Rejected(refusal.value)
    else
      var r, c := db.rewards[id].researcher, db.rewards[id].currency;
      match ChangeOf(db, r, c, outcome)
      case Hold => BelowThreshold
      case Settle(_) => PaidTogether(|Pool(db, r, c)|)
      case Bounce => TransferFailed
  }

  /** The key under which paying reward id now would ask for its transfer. */
  ghost function KeyNow(db: Db, id: Id): string
  {
    if id in db.rewards then PoolKey(Pool(db, db.rewards[id].researcher, db.rewards[id].currency)) else ""
  }

  // ----- batch

  /** The provider's answer to the n-th payment of a batch, which may depend on its key. */
  type Gateway = (nat, string) -> Outcome

  datatype BatchState = BatchState(db: Db, succeeded: seq<Id>, failed: seq<Id>, held: seq<Id>)

  ghost function OutcomeAt(db: Db, ids: seq<Id>, gateway: Gateway): Outcome
    requires ids != []
  {
    gateway(|ids| - 1, KeyNow(db, ids[|ids| - 1]))
  }

  /** One payment after the other, each from the state the previous ones left. */
  ghost function Batch(db: Db, user: Id, ids: seq<Id>, gateway: Gateway): BatchState
  {
    if ids == [] then BatchState(db, [], [], [])
    else
      var b := Batch(db, user, ids[..|ids| - 1], gateway);
      Record(b, user, ids[|ids| - 1], OutcomeAt(b.db, ids, gateway))
  }

  ghost function Record(b: BatchState, user: Id, id: Id, outcome: Outcome): BatchState
  {
    var next := MarkPaid(b.db, user, id, outcome);
    match MarkPaidResult(b.db, user, id, outcome)
    case BelowThreshold => b.(db := next, held := b.held + [id])
    case PaidTogether(_) => b.(db := next, succeeded := b.succeeded + [id])
    case Rejected(_) => b.(db := next, failed := b.failed + [id])
    case TransferFailed => b.(db := next, failed := b.failed + [id])
  }

  // ----- splits

  datatype Share = Share(researcher: Id, percent: real)

  /** JavaScript's Math.round. */
  function Round(x: real): int
  {
    (x + 0.5).Floor
  }

  /** A share as its numeric(5,2) column keeps it. */
  function Stored(percent: real): real
  {
    Round(percent * 100.0) as real / 100.0
  }

  function TotalPercent(shares: seq<Share>): real
  {
    if shares == [] then 0.0 else shares[0].percent + TotalPercent(shares[1..])
  }

  predicate SumsToHundred(shares: seq<Share>)
  {
    -0.01 <= TotalPercent(shares) - 100.0 <= 0.01
  }

  predicate MayConfigure(db: Db, user: Id, id: Id, shares: seq<Share>)
  {
    SumsToHundred(shares) && id in db.rewards && IsOwner(db, user, db.rewards[id].org) &&
    db.rewards[id].status != Paid
  }

  /** The constraints of the splits table: known and distinct researchers, shares in (0, 100]. */
  predicate RowsAccepted(db: Db, shares: seq<Share>)
  {
    (forall i :: 0 <= i < |shares| ==>
       shares[i].researcher in db.profiles && 0.0 < Stored(shares[i].percent) <= 100.0) &&
    (forall i, j :: 0 <= i < j < |shares| ==> shares[i].researcher != shares[j].researcher)
  }

  function NewSplits(id: Id, shares: seq<Share>, newIds: seq<Id>): map<Id, Split>
    requires |newIds| == |shares|
    requires forall i, j :: 0 <= i < j < |newIds| ==> newIds[i] != newIds[j]
  {
    map i | 0 <= i < |newIds| ::
      newIds[i] := Split(id, shares[i].researcher, Stored(shares[i].percent), None, NotStarted, None)
  }

  /** The old rows are deleted first; if the table rejects the new ones, none are left. */
  function Configure(db: Db, user: Id, id: Id, shares: seq<Share>, newIds: seq<Id>): Db
    requires |newIds| == |shares|
    requires forall i, j :: 0 <= i < j < |newIds| ==> newIds[i] != newIds[j]
  {
    if !MayConfigure(db, user, id, shares) then db
    else if RowsAccepted(db, shares) then
      db.(splits := (db.splits - SplitsOf(db, id)) + NewSplits(id, shares, newIds), minted := db.minted + Elems(newIds))
    else db.(splits := db.splits - SplitsOf(db, id))
  }

  function SplitAmount(amount: int, share: real): int
  {
    Round(amount as real * (share / 100.0))
  }

  function Cents(amount: int): int
  {
    Round((amount * 100) as real)
  }

  predicate MayPaySplits(db: Db, user: Id, id: Id)
  {
    id in db.rewards && IsOwner(db, user, db.rewards[id].org) && db.rewards[id].status == Approved && HasSplits(db, id)
  }

  predicate SplitSucceeds(db: Db, s: Id, gateway: string -> Outcome)
    requires s in db.splits
  {
    Connected(db, db.splits[s].researcher) && gateway(SplitKey(s)).Sent?
  }

  predicate SplitReaches(db: Db, s: Id, gateway: string -> Outcome)
    requires s in db.splits
  {
    Connected(db, db.splits[s].researcher) && !gateway(SplitKey(s)).Refused?
  }

  function SplitTransfer(db: Db, s: Id): Transfer
    requires s in db.splits && db.splits[s].reward in db.rewards && Connected(db, db.splits[s].researcher)
  {
    var split := db.splits[s];
    var reward := db.rewards[split.reward];
    Transfer(db.profiles[split.researcher].account.value, Cents(SplitAmount(reward.amount, split.share)),
             reward.currency, ForSplit(split.reward, s))
  }

  function SplitRow(db: Db, s: Id, gateway: string -> Outcome): Split
    requires s in db.splits && db.splits[s].reward in db.rewards
  {
    var row := db.splits[s].(amount := Some(SplitAmount(db.rewards[db.splits[s].reward].amount, db.splits[s].share)));
    if SplitSucceeds(db, s, gateway) then row.(payout := Succeeded, transfer := Some(SplitKey(s)))
    else row.(payout := Failed)
  }

  /** The transfers that this payout asks for and the provider makes. */
  function SplitTransfers(db: Db, done: set<Id>, gateway: string -> Outcome): Ledger
    requires forall s :: s in done ==> s in db.splits && db.splits[s].reward in db.rewards
  {
    map s | s in done && SplitReaches(db, s, gateway) :: SplitKey(s) := SplitTransfer(db, s)
  }

  /** The database once the splits in done have been through their transfer requests. */
  function AfterSplits(db: Db, done: set<Id>, gateway: string -> Outcome): Db
    requires forall s :: s in done ==> s in db.splits && db.splits[s].reward in db.rewards
  {
    db.(splits := map s | s in db.splits :: if s in done then SplitRow(db, s, gateway) else db.splits[s],
        ledger := SplitTransfers(db, done, gateway) + db.ledger)
  }

  predicate AllSucceed(db: Db, done: set<Id>, gateway: string -> Outcome)
    requires forall s :: s in done ==> s in db.splits
  {
    forall s :: s in done ==> SplitSucceeds(db, s, gateway)
  }

  /** Every split is requested, whatever its own status; the reward is paid when all requests are answered. */
  function PaySplits(db: Db, user: Id, id: Id, gateway: string -> Outcome): Db
  {
    if !MayPaySplits(db, user, id) then db
    else
      AfterSplits(db, SplitsOf(db, id), gateway).(
        rewards := if AllSucceed(db, SplitsOf(db, id), gateway)
                   then db.rewards[id := db.rewards[id].(status := Paid, payout := Succeeded)]
                   else db.rewards)
  }

  // ----- runs

  datatype Step =
    | DoPropose(user: Id, submission: Id, newId: Id, amount: int, currency: string)
    | DoApprove(user: Id, id: Id)
    | DoDecline(user: Id, id: Id, reasonGiven: bool)
    | DoConfigure(user: Id, id: Id, shares: seq<Share>, newIds: seq<Id>)
    | DoPay(user: Id, id: Id, outcome: Outcome)
    | DoBatch(user: Id, ids: seq<Id>, batchGateway: Gateway)
    | DoPaySplits(user: Id, id: Id, splitGateway: string -> Outcome)
    | DoConnect(researcher: Id, profile: Profile)

  /** Row ids are new when minted, and the reward widget offers approve and decline on pending rewards only. */
  predicate Offered(db: Db, step: Step)
  {
    match step
    case DoPropose(_, _, newId, _, _) => newId !in db.rewards
    case DoApprove(_, id) => id in db.rewards ==> db.rewards[id].status == Pending
    case DoDecline(_, id, _) => id in db.rewards ==> db.rewards[id].status == Pending
    case DoConfigure(_, _, shares, newIds) => WellMinted(db, shares, newIds)
    case _ => true
  }

  predicate WellMinted(db: Db, shares: seq<Share>, newIds: seq<Id>)
  {
    |newIds| == |shares| && (forall i, j :: 0 <= i < j < |newIds| ==> newIds[i] != newIds[j]) &&
    forall i :: 0 <= i < |newIds| ==> newIds[i] !in db.minted
  }

  ghost function Apply(db: Db, step: Step): Db
    requires Offered(db, step)
  {
    match step
    case DoPropose(user, submission, newId, amount, currency) => Propose(db, user, submission, newId, amount, currency)
    case DoApprove(user, id) => Approve(db, user, id)
    case DoDecline(user, id, reasonGiven) => Decline(db, user, id, reasonGiven)
    case DoConfigure(user, id, shares, newIds) => Configure(db, user, id, shares, newIds)
    case DoPay(user, id, outcome) => MarkPaid(db, user, id, outcome)
    case DoBatch(user, ids, gateway) => Batch(db, user, ids, gateway).db
    case DoPaySplits(user, id, gateway) => PaySplits(db, user, id, gateway)
    case DoConnect(researcher, profile) => db.(profiles := db.profiles[researcher := profile])
  }

  ghost predicate Legal(db: Db, steps: seq<Step>)
    decreases |steps|
  {
    steps == [] || (Offered(db, steps[0]) && Legal(Apply(db, steps[0]), steps[1..]))
  }

  ghost function Run(db: Db, steps: seq<Step>): Db
    requires Legal(db, steps)
    decreases |steps|
  {
    if steps == [] then db else Run(Apply(db, steps[0]), steps[1..])
  }
}
