/** What the split actions write, column by column, and what the payout columns say in every run. */
module RewardColumns {
  import opened Collections
  import opened PoolKeys
  import opened RewardModel
  import opened RewardInvariants
  import opened PoolPayments
  import opened RewardRuns
  import opened RewardTheorems
  import opened SplitRounding

  // ----- paying splits

  /** The owner asks for the splits of an approved reward that has some. */
  ghost predicate MayPayOut(db: Db, user: Id, id: Id)
  {
    id in db.rewards && Owns(db, user, id) && db.rewards[id].status == Approved &&
    exists s :: s in db.splits && db.splits[s].reward == id
  }

  lemma PayOutIs(db: Db, user: Id, id: Id)
    ensures MayPaySplits(db, user, id) <==> MayPayOut(db, user, id)
  {
    if s :| s in db.splits && db.splits[s].reward == id { assert s in SplitsOf(db, id); }
    if s :| s in SplitsOf(db, id) { assert s in db.splits; }
  }

  /** The recipient of split s can be paid, and the provider answers for it. */
  predicate Answered(db: Db, s: Id, gateway: string -> Outcome)
    requires s in db.splits
  {
    CanReceive(db, db.splits[s].researcher) && gateway("split:" + s) == Sent
  }

  /**
   * A payout tries every split of its reward: each gets its rounded amount, and is marked as succeeded, under its own
   * transfer, or as failed. No other split row changes.
   */
  lemma SplitEffect(db: Db, user: Id, id: Id, gateway: string -> Outcome, s: Id)
    requires forall s :: s in db.splits ==> db.splits[s].reward in db.rewards
    requires s in db.splits
    ensures var b, row := PaySplits(db, user, id, gateway), db.splits[s];
      s in b.splits &&
      if !MayPayOut(db, user, id) || row.reward != id then b.splits[s] == row
      else
        var x := db.rewards[id].amount as real * (row.share / 100.0);
        b.splits[s].amount.Some? && x - 0.5 < b.splits[s].amount.value as real <= x + 0.5 &&
        if Answered(db, s, gateway)
        then b.splits[s] == row.(amount := b.splits[s].amount, payout := Succeeded, transfer := Some("split:" + s))
        else b.splits[s] == row.(amount := b.splits[s].amount, payout := Failed)
  {
    hide SplitTransfers, AllSucceed, IsOwner, HasSplits;
    PayOutIs(db, user, id);
    RoundIs(db.rewards[db.splits[s].reward].amount as real * (db.splits[s].share / 100.0));
  }

  /** The reward's own row becomes paid when all are answered; held marks and all other rows stay as they were. */
  lemma RewardEffect(db: Db, user: Id, id: Id, gateway: string -> Outcome)
    requires forall s :: s in db.splits ==> db.splits[s].reward in db.rewards
    ensures var b := PaySplits(db, user, id, gateway);
      b == db.(rewards := b.rewards, splits := b.splits, ledger := b.ledger) && b.splits.Keys == db.splits.Keys &&
      b.rewards ==
      if MayPayOut(db, user, id) && forall s :: s in db.splits && db.splits[s].reward == id ==> Answered(db, s, gateway)
      then db.rewards[id := db.rewards[id].(status := Paid, payout := Succeeded)]
      else db.rewards
  {
    hide SplitTransfers, SplitRow, IsOwner, HasSplits;
    PayOutIs(db, user, id);
  }

  /** In every sound state the transfer of a split that is still there is for its rounded share. */
  lemma SplitTransferIs(db: Db, s: Id)
    requires Sound(db) && s in db.splits && "split:" + s in db.ledger
    ensures db.splits[s].reward in db.rewards
    ensures var t, reward := db.ledger["split:" + s], db.rewards[db.splits[s].reward];
      var x := reward.amount as real * (db.splits[s].share / 100.0);
      t.cents % 100 == 0 && x - 0.5 < (t.cents / 100) as real <= x + 0.5 && t.currency == reward.currency
  {
    hide Sum, PoolKey, RowSound, EntrySound, SplitAmount, Cents;
    assert SplitSound(db, s) && SplitKey(s) == "split:" + s;
    CentsAre(db.rewards[db.splits[s].reward].amount, db.splits[s].share);
  }

  // ----- configuring splits

  /** The owner configures a reward that is not paid yet, with shares that sum to 100 up to a hundredth. */
  ghost predicate MaySplit(db: Db, user: Id, id: Id, shares: seq<Share>)
  {
    id in db.rewards && Owns(db, user, id) && db.rewards[id].status != Paid &&
    99.99 <= Total(Percents(shares)) <= 100.01
  }

  /** The row stored for a share: two decimals, nothing paid yet. */
  predicate StoredAs(row: Split, id: Id, share: Share)
  {
    row.reward == id && row.researcher == share.researcher && row.amount == None && row.transfer == None &&
    row.payout == NotStarted && (row.share * 100.0).Floor as real == row.share * 100.0 &&
    share.percent * 100.0 - 0.5 < row.share * 100.0 <= share.percent * 100.0 + 0.5
  }

  lemma StoredIs(percent: real)
    ensures var cents := Stored(percent) * 100.0;
      cents.Floor as real == cents && percent * 100.0 - 0.5 < cents <= percent * 100.0 + 0.5
  {
    RoundIs(percent * 100.0);
  }

  /** The table takes the rows: known recipients, each once, with shares that are positive and at most 100 as stored. */
  ghost predicate TableTakes(db: Db, shares: seq<Share>)
  {
    (forall i :: 0 <= i < |shares| ==>
       shares[i].researcher in db.profiles && 0.005 <= shares[i].percent && shares[i].percent < 100.005) &&
    forall i, j :: 0 <= i < j < |shares| ==> shares[i].researcher != shares[j].researcher
  }

  lemma TakesIff(db: Db, shares: seq<Share>)
    ensures RowsAccepted(db, shares) <==> TableTakes(db, shares)
  {
    hide Stored;
    forall i | 0 <= i < |shares|
      ensures 0.0 < Stored(shares[i].percent) <= 100.0 <==> 0.005 <= shares[i].percent && shares[i].percent < 100.005
    {
      InRange(shares[i].percent);
    }
  }

  lemma InRange(percent: real)
    ensures 0.0 < Stored(percent) <= 100.0 <==> 0.005 <= percent && percent < 100.005
  {
    var n := Round(percent * 100.0);
    RoundIs(percent * 100.0);
    assert 0.0 < Stored(percent) <==> n >= 1;
    assert Stored(percent) <= 100.0 <==> n <= 10000;
  }

  /** A configuration replaces the splits of its reward by the given ones, or by none, and touches no others. */
  lemma ConfigureEffect(db: Db, user: Id, id: Id, shares: seq<Share>, newIds: seq<Id>)
    requires WellMinted(db, shares, newIds) && forall s :: s in db.splits ==> s in db.minted
    ensures var b := Configure(db, user, id, shares, newIds);
      b == db.(splits := b.splits, minted := b.minted) &&
      (!MaySplit(db, user, id, shares) ==> b == db) &&
      (forall s :: s in b.splits && b.splits[s].reward != id ==> s in db.splits && b.splits[s] == db.splits[s]) &&
      (forall s :: s in db.splits && db.splits[s].reward != id ==> s in b.splits) &&
      (MaySplit(db, user, id, shares) && !TableTakes(db, shares) ==>
         b.minted == db.minted && forall s :: s in b.splits ==> b.splits[s].reward != id) &&
      (MaySplit(db, user, id, shares) && TableTakes(db, shares) ==>
         b.minted == db.minted + Elems(newIds) &&
         (forall s :: s in b.splits && b.splits[s].reward == id ==> s in newIds) &&
         forall i :: 0 <= i < |shares| ==> newIds[i] in b.splits && StoredAs(b.splits[newIds[i]], id, shares[i]))
  {
    hide Stored, SumsToHundred, RowsAccepted, TableTakes, NewSplits, MayConfigure, StoredAs, SplitsOf,
      MaySplit, Configure;
    TakesIff(db, shares);
    MaySplitIs(db, user, id, shares);
    if MaySplit(db, user, id, shares) {
      if TableTakes(db, shares) {
        TakenEffect(db, user, id, shares, newIds);
      } else {
        RejectedEffect(db, user, id, shares, newIds);
      }
    } else {
      NotConfigured(db, user, id, shares, newIds);
    }
  }

  lemma NotConfigured(db: Db, user: Id, id: Id, shares: seq<Share>, newIds: seq<Id>)
    requires WellMinted(db, shares, newIds) && !MayConfigure(db, user, id, shares)
    ensures Configure(db, user, id, shares, newIds) == db
  {
  }

  lemma RejectedEffect(db: Db, user: Id, id: Id, shares: seq<Share>, newIds: seq<Id>)
    requires WellMinted(db, shares, newIds) && MayConfigure(db, user, id, shares) && !RowsAccepted(db, shares)
    ensures var b := Configure(db, user, id, shares, newIds);
      b == db.(splits := b.splits) &&
      (forall s :: s in b.splits ==> s in db.splits && b.splits[s] == db.splits[s] && b.splits[s].reward != id) &&
      forall s :: s in db.splits && db.splits[s].reward != id ==> s in b.splits
  {
    hide MayConfigure, RowsAccepted;
  }

  lemma TakenEffect(db: Db, user: Id, id: Id, shares: seq<Share>, newIds: seq<Id>)
    requires WellMinted(db, shares, newIds) && MayConfigure(db, user, id, shares) && RowsAccepted(db, shares)
    requires forall s :: s in db.splits ==> s in db.minted
    ensures var b := Configure(db, user, id, shares, newIds);
      b == db.(splits := b.splits, minted := db.minted + Elems(newIds)) &&
      (forall s :: s in b.splits && b.splits[s].reward != id ==> s in db.splits && b.splits[s] == db.splits[s]) &&
      (forall s :: s in db.splits && db.splits[s].reward != id ==> s in b.splits) &&
      (forall s :: s in b.splits && b.splits[s].reward == id ==> s in newIds) &&
      forall i :: 0 <= i < |shares| ==> newIds[i] in b.splits && StoredAs(b.splits[newIds[i]], id, shares[i])
  {
    hide MayConfigure, RowsAccepted, NewSplits, Stored, StoredAs;
    NewSplitRows(id, shares, newIds);
    NewRowsAreNew(db, id, shares, newIds);
    forall i | 0 <= i < |shares|
      ensures StoredAs(Split(id, shares[i].researcher, Stored(shares[i].percent), None, NotStarted, None), id,
                       shares[i])
    {
      StoredRow(id, shares[i]);
    }
    assert forall s :: s in Elems(newIds) ==> s in newIds;
  }

  lemma StoredRow(id: Id, share: Share)
    ensures StoredAs(Split(id, share.researcher, Stored(share.percent), None, NotStarted, None), id, share)
  {
    hide Stored;
    StoredIs(share.percent);
  }

  lemma MaySplitIs(db: Db, user: Id, id: Id, shares: seq<Share>)
    ensures MayConfigure(db, user, id, shares) <==> MaySplit(db, user, id, shares)
  {
    PercentsTotal(shares);
  }

  // ----- the payout columns over a run

  /**
   * The payout column follows from status and failures; a failed attempt is on record exactly for approved rewards; and
   * a reward is marked as held only while it is approved, or for good if it was then paid by splits.
   */
  predicate PayoutTrue(row: Reward)
  {
    (row.payout == Succeeded <==> row.status == Paid) &&
    (row.payout == Failed <==> row.status == Approved && row.retries > 0) &&
    (row.retries > 0 ==> row.status == Approved || row.status == Paid) &&
    (row.held ==> row.status == Approved || (row.status == Paid && row.transfer.None?))
  }

  ghost predicate AllTrue(db: Db)
  {
    forall r :: r in db.rewards ==> PayoutTrue(db.rewards[r])
  }

  lemma PayTrue(db: Db, user: Id, id: Id, outcome: Outcome)
    requires AllTrue(db)
    ensures AllTrue(MarkPaid(db, user, id, outcome))
  {
    hide Sum, PoolKey, MarkPaid, MarkPaidResult, Companions, Worth, Owns;
    MoneyEffect(db, user, id, outcome);
    ResultIs(db, user, id, outcome);
    forall r | r in db.rewards ensures PayoutTrue(MarkPaid(db, user, id, outcome).rewards[r]) {
      RowEffect(db, user, id, outcome, r);
    }
  }

  lemma {:induction false} BatchTrue(db: Db, user: Id, ids: seq<Id>, gateway: Gateway)
    requires AllTrue(db)
    ensures AllTrue(Batch(db, user, ids, gateway).db)
    decreases |ids|
  {
    hide MarkPaid, MarkPaidResult, AllTrue, OutcomeAt;
    if ids == [] {
    } else {
      var mid := Batch(db, user, ids[..|ids| - 1], gateway).db;
      BatchTrue(db, user, ids[..|ids| - 1], gateway);
      PayTrue(mid, user, ids[|ids| - 1], OutcomeAt(mid, ids, gateway));
    }
  }

  lemma SplitsTrue(db: Db, user: Id, id: Id, gateway: string -> Outcome)
    requires Sound(db) && AllTrue(db)
    ensures AllTrue(PaySplits(db, user, id, gateway))
  {
    hide Sum, PoolKey, EntrySound, SplitSound, RowSound, PaySplits, Answered, Owns, PayoutTrue;
    assert forall s :: s in db.splits ==> SplitSound(db, s);
    Minted(db);
    RewardEffect(db, user, id, gateway);
    if MayPayOut(db, user, id) {
      Unsettled(db, id);
      PaidIsTrue(db.rewards[id]);
    }
  }

  lemma PaidIsTrue(row: Reward)
    requires row.transfer.None?
    ensures PayoutTrue(row.(status := Paid, payout := Succeeded))
  {
  }

  lemma Unsettled(db: Db, id: Id)
    requires Sound(db) && id in db.rewards && db.rewards[id].status == Approved
    ensures db.rewards[id].transfer.None?
  {
    hide Sum, PoolKey, EntrySound, SplitSound, RowFits;
    assert RowSound(db, id);
  }

  lemma StepTrue(db: Db, step: Step)
    requires Sound(db) && AllTrue(db) && Offered(db, step)
    ensures AllTrue(Apply(db, step))
  {
    hide Sum, Sound, AllTrue, MarkPaid, Batch, PaySplits, Configure, Propose, Approve, Decline;
    match step
    case DoPay(user, id, outcome) => PayTrue(db, user, id, outcome);
    case DoBatch(user, ids, gateway) => BatchTrue(db, user, ids, gateway);
    case DoPaySplits(user, id, gateway) => SplitsTrue(db, user, id, gateway);
    case DoConfigure(user, id, shares, newIds) =>
      ConfigureFrame(db, user, id, shares, newIds);
      SameRows(db, Apply(db, step));
    case DoConnect(_, _) => SameRows(db, Apply(db, step));
    case _ => DecisionTrue(db, step);
  }

  lemma SameRows(a: Db, b: Db)
    requires AllTrue(a) && b.rewards == a.rewards
    ensures AllTrue(b)
  {
  }

  lemma DecisionTrue(db: Db, step: Step)
    requires AllTrue(db) && Offered(db, step) && (step.DoPropose? || step.DoApprove? || step.DoDecline?)
    ensures AllTrue(Apply(db, step))
  {
    hide MayPropose, IsOwner, Batch, MarkPaid, PaySplits, Configure, WellMinted;
  }

  lemma {:induction false} RunTrue(db: Db, steps: seq<Step>)
    requires Sound(db) && AllTrue(db) && Legal(db, steps)
    ensures AllTrue(Run(db, steps))
    decreases |steps|
  {
    hide Sum, Sound, AllTrue, Apply, Offered, Evolves, Preserves, StepFailures;
    if steps == [] {
    } else {
      StepKeeps(db, steps[0]);
      StepTrue(db, steps[0]);
      RunTrue(Apply(db, steps[0]), steps[1..]);
    }
  }

  /** In every run the payout, retry and held columns of every reward tell the truth. */
  lemma PayoutColumns(db: Db, steps: seq<Step>, r: Id)
    requires Initial(db) && Legal(db, steps) && r in Run(db, steps).rewards
    ensures PayoutTrue(Run(db, steps).rewards[r])
  {
    hide Sound, Whole, Pooled, SplitsKept, Run, PayoutTrue, SettledIn, RoomLeft;
    InitialIsGood(db);
    assert AllTrue(db) by { NoRewards(db); }
    RunTrue(db, steps);
  }
}
