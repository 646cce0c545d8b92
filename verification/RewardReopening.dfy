/** What happens when a decision is taken again: approving or declining out of turn, and configuring splits anew. */
module RewardReopening {
  import opened Collections
  import opened PoolKeys
  import opened RewardModel
  import opened RewardInvariants
  import opened PoolPayments
  import opened RewardRuns
  import opened RewardTheorems
  import opened RewardLimits

  // ----- approving or declining whatever the status

  /** The owner takes a decision on a reward that a pool transfer has settled. */
  predicate ReopensPooled(db: Db, user: Id, id: Id)
  {
    id in db.rewards && IsOwner(db, user, db.rewards[id].org) && db.rewards[id].transfer.Some?
  }

  /** A decision on one row keeps the invariants exactly when the row names no pool transfer. */
  lemma DecisionSoundIff(db: Db, id: Id, row: Reward)
    requires Sound(db) && id in db.rewards && (row.status == Approved || row.status == Declined)
    requires row == db.rewards[id].(status := row.status, approvedBy := row.approvedBy)
    requires row.status == Approved ==> ApprovedByOwner(db.owners, row)
    ensures Sound(db.(rewards := db.rewards[id := row])) <==> row.transfer.None?
  {
    hide Sum, PoolKey, RowSound, SplitSound, EntrySound, RowFits, SameFacts;
    var b := db.(rewards := db.rewards[id := row]);
    assert forall r :: SplitsOf(b, r) == SplitsOf(db, r);
    if row.transfer.None? {
      forall r | r in b.rewards ensures RowSound(b, r) { DecidedRow(db, id, row, r); }
      forall s | s in b.splits ensures SplitSound(b, s) { DecidedSplit(db, id, row, s); }
      assert forall r :: r in db.rewards ==> SameFacts(db.rewards[r], b.rewards[r]) by { DecidedFacts(db, id, row); }
      forall k | k in b.ledger ensures EntrySound(b, k) { EntryByFacts(db, b, k); }
    } else if Sound(b) {
      assert RowSound(b, id);
      NoPooledDecision(b, id);
    }
  }

  lemma NoPooledDecision(db: Db, id: Id)
    requires id in db.rewards && RowSound(db, id) && db.rewards[id].transfer.Some?
    ensures db.rewards[id].status == Paid
  {
  }

  lemma DecidedFacts(db: Db, id: Id, row: Reward)
    requires id in db.rewards && row == db.rewards[id].(status := row.status, approvedBy := row.approvedBy)
    ensures forall r :: r in db.rewards ==> SameFacts(db.rewards[r], db.rewards[id := row][r])
  {
  }

  lemma DecidedRow(db: Db, id: Id, row: Reward, r: Id)
    requires Sound(db) && id in db.rewards && r in db.rewards && (row.status == Approved || row.status == Declined)
    requires row == db.rewards[id].(status := row.status, approvedBy := row.approvedBy) && row.transfer.None?
    requires row.status == Approved ==> ApprovedByOwner(db.owners, row)
    ensures RowSound(db.(rewards := db.rewards[id := row]), r)
  {
    hide Sum, PoolKey, SplitSound, EntrySound;
    var b := db.(rewards := db.rewards[id := row]);
    assert RowSound(db, r) && RowSound(db, id);
    assert SplitsOf(b, r) == SplitsOf(db, r);
  }

  lemma DecidedSplit(db: Db, id: Id, row: Reward, s: Id)
    requires Sound(db) && id in db.rewards && s in db.splits
    requires row == db.rewards[id].(status := row.status, approvedBy := row.approvedBy)
    ensures SplitSound(db.(rewards := db.rewards[id := row]), s)
  {
    hide Sum, PoolKey, RowSound, EntrySound, SplitAmount, Cents;
    assert SplitSound(db, s);
  }

  /** Approval has no check of the status: it keeps the invariants exactly when no pool transfer settled the reward. */
  lemma ApproveSoundIff(db: Db, user: Id, id: Id)
    requires Sound(db)
    ensures Sound(Approve(db, user, id)) <==> !ReopensPooled(db, user, id)
  {
    hide Sound;
    if Approve(db, user, id) != db {
      DecisionSoundIff(db, id, Approve(db, user, id).rewards[id]);
    } else if ReopensPooled(db, user, id) {
      assert Approve(db, user, id).rewards[id].status == Approved;
      SettledIsPaid(db, id);
    }
  }

  lemma SettledIsPaid(db: Db, id: Id)
    requires Sound(db) && id in db.rewards && db.rewards[id].transfer.Some?
    ensures db.rewards[id].status == Paid
  {
    hide Sum, PoolKey, SplitSound, EntrySound;
    assert RowSound(db, id);
  }

  /** Nor has declining. */
  lemma DeclineSoundIff(db: Db, user: Id, id: Id, reasonGiven: bool)
    requires Sound(db)
    ensures Sound(Decline(db, user, id, reasonGiven)) <==> !(reasonGiven && ReopensPooled(db, user, id))
  {
    hide Sound;
    if Decline(db, user, id, reasonGiven) != db {
      DecisionSoundIff(db, id, Decline(db, user, id, reasonGiven).rewards[id]);
    } else if reasonGiven && ReopensPooled(db, user, id) {
      assert Decline(db, user, id, reasonGiven).rewards[id].status == Declined;
      SettledIsPaid(db, id);
    }
  }

  // ----- what a reopened reward does to the totals

  /** A settling payment keeps totals and settled amounts in step exactly when its pool was not settled before. */
  lemma PayTotalsIff(db: Db, researcher: Id, currency: string, outcome: Outcome)
    requires Connected(db, researcher) && ChangeOf(db, researcher, currency, outcome).Settle?
    requires forall r :: r in Pool(db, researcher, currency) ==>
      db.rewards[r].amount > 0 && db.rewards[r].program in db.totals
    ensures TotalsEvolve(db, PayPool(db, researcher, currency, outcome)) <==>
            PoolPaid(db) !! Pool(db, researcher, currency)
  {
    hide Sum, PoolKey, SettledIn, PoolPaid, Pool, ChangeOf, PayPool;
    var pool := Pool(db, researcher, currency);
    if PoolPaid(db) !! pool {
      PayTotals(db, researcher, currency, outcome);
    } else {
      forall x | x in pool ensures x in db.rewards { PoolListed(db, researcher, currency, x); }
      var r :| r in PoolPaid(db) && r in pool;
      var p := db.rewards[r].program;
      TotalsDrift(db, researcher, currency, outcome, p);
      var again := Part(pool * PoolPaid(db), Programs(db.rewards), p);
      assert r in again;
      SumPositive(again, Amounts(db.rewards));
    }
  }

  lemma PoolListed(db: Db, researcher: Id, currency: string, x: Id)
    requires x in Pool(db, researcher, currency)
    ensures x in db.rewards
  {
  }

  /**
   * Why approval must be offered on pending rewards only: approving a paid reward again and paying it once more adds
   * its amount to the program's total a second time.
   */
  lemma ReapprovedCountsTwice(db: Db, user: Id, id: Id)
    requires Sound(db) && id in db.rewards && db.rewards[id].transfer.Some?
    requires Charges(Approve(db, user, id), user, id, Sent)
    ensures var p := db.rewards[id].program;
      var again := MarkPaid(Approve(db, user, id), user, id, Sent);
      p in db.totals && p in again.totals &&
      again.totals[p] - SettledIn(again, p) == db.totals[p] - SettledIn(db, p) + db.rewards[id].amount
  {
    hide Sum, PoolKey, Sound, SettledIn, Pool, PoolPaid, PayPool, Approve, Connected, IsOwner;
    var p := db.rewards[id].program;
    var open := Approve(db, user, id);
    var r, c := open.rewards[id].researcher, open.rewards[id].currency;
    Reapproved(db, user, id);
    SettledSame(db, open, p);
    TriggerPayable(open, user, id);
    TotalsDrift(open, r, c, Sent, p);
    OnlyReopened(db, open, r, c, id);
    var part := Part({id}, Programs(open.rewards), p);
    assert part == {id};
    SumPick(part, id, Amounts(open.rewards));
    assert part - {id} == {};
    NoSum(Amounts(open.rewards));
  }

  lemma Reapproved(db: Db, user: Id, id: Id)
    requires Sound(db) && id in db.rewards && db.rewards[id].transfer.Some?
    ensures var open := Approve(db, user, id);
      PoolPaid(open) == PoolPaid(db) && open.totals == db.totals && open.rewards.Keys == db.rewards.Keys &&
      (forall r :: r in db.rewards && r != id ==> open.rewards[r] == db.rewards[r]) &&
      (forall r :: r in db.rewards ==> SameFacts(db.rewards[r], open.rewards[r])) &&
      id in PoolPaid(open) && db.rewards[id].program in db.totals && PoolPaid(db) <= db.rewards.Keys
  {
    hide Sum, PoolKey, SplitSound, EntrySound;
    assert RowSound(db, id);
  }

  /** Besides the reapproved reward itself, no member of its pool has been in a pool transfer. */
  lemma OnlyReopened(db: Db, open: Db, researcher: Id, currency: string, id: Id)
    requires Sound(db) && id in db.rewards && id in open.rewards && open.rewards.Keys == db.rewards.Keys
    requires forall r :: r in db.rewards && r != id ==> open.rewards[r] == db.rewards[r]
    requires id in Pool(open, researcher, currency) && id in PoolPaid(open)
    ensures Pool(open, researcher, currency) * PoolPaid(open) == {id}
  {
    hide Sum, PoolKey, SplitSound, EntrySound;
    assert forall r :: r in db.rewards ==> RowSound(db, r);
  }

  // ----- configuring splits anew

  /**
   * After a new configuration all earlier split transfers of the reward are stale. So the premise of
   * SplitsExactlyOnce survives it exactly when no old split has a transfer.
   */
  lemma ReconfiguredStale(db: Db, user: Id, id: Id, shares: seq<Share>, newIds: seq<Id>)
    requires Sound(db) && WellMinted(db, shares, newIds) && MayConfigure(db, user, id, shares)
    ensures Stale(Configure(db, user, id, shares, newIds), id) == SplitTransfersOf(db, id)
  {
    hide Sum, PoolKey, RowSound, SplitSound, Configure, MayConfigure, SplitsOf;
    var b := Configure(db, user, id, shares, newIds);
    ConfiguredNew(db, user, id, shares, newIds);
    ConfigureFrame(db, user, id, shares, newIds);
    forall k | k in SplitTransfersOf(db, id) ensures k !in KeysOfSplits(SplitsOf(b, id)) {
      assert EntrySound(db, k);
      var s := db.ledger[k].purpose.split;
      if t :| t in SplitsOf(b, id) && k == SplitKey(t) { KeysApart({}, s, t); }
    }
    assert SplitTransfersOf(b, id) == SplitTransfersOf(db, id);
  }

  lemma ConfiguredNew(db: Db, user: Id, id: Id, shares: seq<Share>, newIds: seq<Id>)
    requires WellMinted(db, shares, newIds) && MayConfigure(db, user, id, shares)
    ensures forall s :: s in SplitsOf(Configure(db, user, id, shares, newIds), id) ==> s !in db.minted
  {
    hide MayConfigure, RowsAccepted, NewSplits;
    NewRowsAreNew(db, id, shares, newIds);
  }

  /**
   * When splits are configured anew after some transfers, and later paid in full, the earlier transfers come on top:
   * their recipients, if configured again, are paid twice.
   */
  lemma ReconfiguredPayout(db: Db, user: Id, id: Id, shares: seq<Share>, newIds: seq<Id>, steps: seq<Step>)
    requires Sound(db) && WellMinted(db, shares, newIds) && MayConfigure(db, user, id, shares)
    requires RowsAccepted(db, shares)
    requires Legal(Configure(db, user, id, shares, newIds), steps) && id !in Touched(steps)
    ensures var b := Configure(db, user, id, shares, newIds);
      var end := Run(b, steps);
      id in b.rewards && id in end.rewards && (end.rewards[id].status == Paid ==>
        |SplitTransfersOf(end, id)| == |SplitsOf(b, id)| + |SplitTransfersOf(db, id)| &&
        Sum(SplitTransfersOf(end, id), CentsIn(end.ledger)) ==
        100 * Sum(SplitsOf(b, id), WorthOf(b.splits, b.rewards[id].amount)) +
        Sum(SplitTransfersOf(db, id), CentsIn(db.ledger)))
  {
    hide Sum, Sound, Run, Legal, Touched, Configure, RowsAccepted, HasSplits, KeysOfSplits, SplitTransfersOf, WorthOf;
    var b := Configure(db, user, id, shares, newIds);
    ConfigureSound(db, user, id, shares, newIds);
    ConfigureFrame(db, user, id, shares, newIds);
    ConfigureLeavesSplits(db, user, id, shares, newIds);
    ReconfiguredStale(db, user, id, shares, newIds);
    SplitsPaidWithStale(b, steps, id);
    KeyCount(SplitsOf(b, id));
  }

  lemma {:induction false} KeyCount(splits: set<Id>)
    ensures |KeysOfSplits(splits)| == |splits|
    decreases splits
  {
    if splits == {} {
      assert KeysOfSplits(splits) == {};
    } else {
      var s :| s in splits;
      forall t | t in splits && SplitKey(t) == SplitKey(s) ensures t == s { KeysApart({}, s, t); }
      assert KeysOfSplits(splits) == KeysOfSplits(splits - {s}) + {SplitKey(s)};
      KeyCount(splits - {s});
    }
  }
}
