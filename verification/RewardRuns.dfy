/** The invariants over every run of reward actions, and the theorems that follow from them. */
module RewardRuns {
  import opened Collections
  import opened PoolKeys
  import opened RewardModel
  import opened RewardInvariants
  import opened PoolPayments

  // ----- configuring splits

  /** A newly minted split id has no transfer yet. */
  lemma MintedKeyIsNew(db: Db, s: Id)
    requires Sound(db) && s !in db.minted
    ensures SplitKey(s) !in db.ledger
  {
    hide Sum, PoolKey, RowSound, SplitSound;
    if SplitKey(s) in db.ledger {
      assert EntrySound(db, SplitKey(s));
      match db.ledger[SplitKey(s)].purpose {
        case ForPool(pool) => KeysApart(pool, s, s);
        case ForSplit(_, other) => KeysApart({}, s, other);
      }
    }
  }

  lemma ConfigureSplits(db: Db, user: Id, id: Id, shares: seq<Share>, newIds: seq<Id>)
    requires Sound(db) && WellMinted(db, shares, newIds)
    ensures var b := Configure(db, user, id, shares, newIds);
      forall s :: s in b.splits ==> SplitSound(b, s)
  {
    hide Sum, PoolKey, RowSound, EntrySound, SumsToHundred, RowsAccepted, Stored, SplitAmount, Cents;
    var b := Configure(db, user, id, shares, newIds);
    forall s | s in b.splits ensures SplitSound(b, s) {
      if s !in db.splits || b.splits[s] != db.splits[s] {
        assert s in NewSplits(id, shares, newIds);
        MintedKeyIsNew(db, s);
      } else {
        assert SplitSound(db, s);
      }
    }
  }

  lemma ReplaceKeeps(a: Db, b: Db, id: Id, rows: map<Id, Split>, r: Id)
    requires b.splits == (a.splits - SplitsOf(a, id)) + rows && r != id
    requires forall s :: s in rows ==> rows[s].reward == id && s !in a.splits
    ensures SameSplits(a, b, r)
  {
    assert SplitsOf(b, r) == SplitsOf(a, r);
  }

  lemma SplitsStay(a: Db, b: Db, r: Id)
    requires a.splits == b.splits
    ensures SameSplits(a, b, r)
  {
  }

  lemma NewRowsAreNew(db: Db, id: Id, shares: seq<Share>, newIds: seq<Id>)
    requires WellMinted(db, shares, newIds)
    ensures forall s :: s in NewSplits(id, shares, newIds) ==>
      NewSplits(id, shares, newIds)[s].reward == id && s !in db.minted
  {
    hide Stored;
  }

  lemma ConfigureOther(db: Db, user: Id, id: Id, shares: seq<Share>, newIds: seq<Id>, r: Id)
    requires WellMinted(db, shares, newIds)
    requires forall s :: s in db.splits ==> s in db.minted
    requires r != id || (r in db.rewards && db.rewards[r].status == Paid)
    ensures SameSplits(db, Configure(db, user, id, shares, newIds), r)
  {
    hide SumsToHundred, RowsAccepted, SameSplits, SplitsOf, IsOwner, NewSplits;
    var b := Configure(db, user, id, shares, newIds);
    if r == id || !MayConfigure(db, user, id, shares) {
      SplitsStay(db, b, r);
    } else {
      NewRowsAreNew(db, id, shares, newIds);
      var rows := if RowsAccepted(db, shares) then NewSplits(id, shares, newIds) else map[];
      ReplaceKeeps(db, b, id, rows, r);
    }
  }

  lemma ConfigureFrame(db: Db, user: Id, id: Id, shares: seq<Share>, newIds: seq<Id>)
    requires WellMinted(db, shares, newIds)
    ensures var b := Configure(db, user, id, shares, newIds);
      b.rewards == db.rewards && b.totals == db.totals && b.ledger == db.ledger && b.submissions == db.submissions &&
      b.owners == db.owners && b.profiles == db.profiles && db.minted <= b.minted &&
      (id in db.rewards && db.rewards[id].status == Paid ==> b == db)
  {
    hide SumsToHundred, RowsAccepted, NewSplits, IsOwner, SplitsOf;
  }

  lemma ConfigureSound(db: Db, user: Id, id: Id, shares: seq<Share>, newIds: seq<Id>)
    requires Sound(db) && WellMinted(db, shares, newIds)
    ensures Sound(Configure(db, user, id, shares, newIds))
  {
    hide Sum, PoolKey, SplitSound, EntrySound, Configure, SplitKey;
    var b := Configure(db, user, id, shares, newIds);
    ConfigureFrame(db, user, id, shares, newIds);
    ConfigureSplits(db, user, id, shares, newIds);
    Minted(db);
    forall r | r in b.rewards ensures RowSound(b, r) {
      assert RowSound(db, r);
      if r != id || db.rewards[r].status == Paid { ConfigureOther(db, user, id, shares, newIds, r); }
    }
    forall k | k in b.ledger ensures EntrySound(b, k) {
      EntryKeeps(db, b, k);
    }
  }

  lemma Minted(db: Db)
    requires Sound(db)
    ensures forall s :: s in db.splits ==> s in db.minted && db.splits[s].reward in db.rewards
  {
    hide RowSound, EntrySound;
    assert forall s :: s in db.splits ==> SplitSound(db, s);
  }

  lemma ConfigureEvolves(db: Db, user: Id, id: Id, shares: seq<Share>, newIds: seq<Id>)
    requires Sound(db) && WellMinted(db, shares, newIds)
    ensures Evolves(db, Configure(db, user, id, shares, newIds), 0, {id})
  {
    hide Sum, Sound, RoomEvolves, TotalsEvolve, SameSplits, Configure;
    var b := Configure(db, user, id, shares, newIds);
    ConfigureFrame(db, user, id, shares, newIds);
    Minted(db);
    forall r | r != id || (r in db.rewards && db.rewards[r].status == Paid) ensures SameSplits(db, b, r) {
      ConfigureOther(db, user, id, shares, newIds, r);
    }
    RoomSame(db, b);
    assert PoolPaid(b) == PoolPaid(db);
    TotalsSame(db, b);
  }

  /** After a configuration that got past the guards the reward has splits exactly if the table took the new rows. */
  lemma ConfigureLeavesSplits(db: Db, user: Id, id: Id, shares: seq<Share>, newIds: seq<Id>)
    requires WellMinted(db, shares, newIds) && MayConfigure(db, user, id, shares)
    ensures HasSplits(Configure(db, user, id, shares, newIds), id) <==> RowsAccepted(db, shares)
  {
    hide RowsAccepted;
    var b := Configure(db, user, id, shares, newIds);
    assert shares != [];
    if RowsAccepted(db, shares) {
      assert newIds[0] in NewSplits(id, shares, newIds);
      assert newIds[0] in SplitsOf(b, id);
    }
  }

  /** The splits table takes the rows of a configuration that gets past the guards. */
  predicate Accepted(db: Db, user: Id, id: Id, shares: seq<Share>)
  {
    MayConfigure(db, user, id, shares) ==> RowsAccepted(db, shares)
  }

  lemma ConfigurePreserves(db: Db, user: Id, id: Id, shares: seq<Share>, newIds: seq<Id>)
    requires Sound(db) && WellMinted(db, shares, newIds)
    ensures Preserves(db, Configure(db, user, id, shares, newIds), true, Accepted(db, user, id, shares))
    ensures PoolsStay(db, Configure(db, user, id, shares, newIds))
  {
    hide Sum, Sound, Configure, MayConfigure, RowsAccepted, HasSplits, Names;
    var b := Configure(db, user, id, shares, newIds);
    ConfigureFrame(db, user, id, shares, newIds);
    Minted(db);
    assert forall k, r :: InPool(b, k, r) <==> InPool(db, k, r);
    if Accepted(db, user, id, shares) && SplitsKept(db) {
      forall k, r | InSplit(b, k, r) ensures HasSplits(b, r) {
        assert InSplit(db, k, r);
        StillSplit(db, user, id, shares, newIds, r);
      }
    }
    PoolsStayPreserve(db, b, Accepted(db, user, id, shares));
  }

  lemma StillSplit(db: Db, user: Id, id: Id, shares: seq<Share>, newIds: seq<Id>, r: Id)
    requires WellMinted(db, shares, newIds) && Accepted(db, user, id, shares) && HasSplits(db, r)
    requires forall s :: s in db.splits ==> s in db.minted
    ensures HasSplits(Configure(db, user, id, shares, newIds), r)
  {
    hide MayConfigure, RowsAccepted, NewSplits;
    if MayConfigure(db, user, id, shares) && r == id {
      ConfigureLeavesSplits(db, user, id, shares, newIds);
    } else if r != id {
      ConfigureOther(db, user, id, shares, newIds, r);
    }
  }

  // ----- paying splits

  /** A ledger entry that the split payout adds. */
  lemma SplitEntryNew(db: Db, user: Id, id: Id, gateway: string -> Outcome, k: string)
    requires MayPaySplits(db, user, id)
    requires forall s :: s in db.splits ==> s in db.minted && db.splits[s].reward in db.rewards
    requires k in PaySplits(db, user, id, gateway).ledger && k !in db.ledger
    ensures EntrySound(PaySplits(db, user, id, gateway), k)
    ensures ServesKept(db, PaySplits(db, user, id, gateway).ledger[k].purpose, {})
    ensures InSplit(PaySplits(db, user, id, gateway), k, id)
  {
    hide Sum, PoolKey, SplitAmount, Cents, SplitRow, SplitSucceeds;
    var made := SplitTransfers(db, SplitsOf(db, id), gateway);
    assert k in made;
    var s :| s in SplitsOf(db, id) && SplitReaches(db, s, gateway) && k == SplitKey(s);
    assert made[k] == SplitTransfer(db, s);
  }

  lemma SplitPayFrame(db: Db, user: Id, id: Id, gateway: string -> Outcome)
    requires MayPaySplits(db, user, id)
    requires forall s :: s in db.splits ==> db.splits[s].reward in db.rewards
    ensures var b := PaySplits(db, user, id, gateway);
      RowsEvolve(db, b) && LedgerGrows(db, b) &&
      b == db.(rewards := b.rewards, splits := b.splits, ledger := b.ledger) &&
      b.splits.Keys == db.splits.Keys && b.rewards.Keys == db.rewards.Keys &&
      (forall r :: r in db.rewards ==> b.rewards[r].transfer == db.rewards[r].transfer &&
                                       b.rewards[r].retries == db.rewards[r].retries)
  {
    hide SplitRow, SplitTransfers, AllSucceed, IsOwner, Connected;
  }

  lemma SplitPaySplits(db: Db, user: Id, id: Id, gateway: string -> Outcome)
    requires MayPaySplits(db, user, id)
    requires forall s :: s in db.splits ==> db.splits[s].reward in db.rewards
    ensures var b := PaySplits(db, user, id, gateway);
      b.splits.Keys == db.splits.Keys && forall s :: s in db.splits ==> SameShare(db.splits[s], b.splits[s])
  {
    hide SplitTransfers, AllSucceed, IsOwner, SplitAmount, SplitSucceeds;
  }

  ghost predicate SameShare(a: Split, b: Split)
  {
    b.reward == a.reward && b.researcher == a.researcher && b.share == a.share
  }

  lemma SharesStay(a: Db, b: Db, r: Id)
    requires b.splits.Keys == a.splits.Keys && forall s :: s in a.splits ==> SameShare(a.splits[s], b.splits[s])
    ensures SameSplits(a, b, r)
  {
    assert SplitsOf(b, r) == SplitsOf(a, r);
  }

  lemma SplitPayRows(db: Db, user: Id, id: Id, gateway: string -> Outcome)
    requires MayPaySplits(db, user, id)
    requires forall s :: s in db.splits ==> s in db.minted && db.splits[s].reward in db.rewards
    ensures var b := PaySplits(db, user, id, gateway);
      RowsEvolve(db, b) && LedgerGrows(db, b) &&
      b == db.(rewards := b.rewards, splits := b.splits, ledger := b.ledger) &&
      b.splits.Keys == db.splits.Keys && b.rewards.Keys == db.rewards.Keys &&
      (forall r :: SameSplits(db, b, r)) &&
      (forall r :: r in db.rewards ==> b.rewards[r].transfer == db.rewards[r].transfer &&
                                       b.rewards[r].retries == db.rewards[r].retries)
  {
    hide PaySplits, SameSplits, RowsEvolve, LedgerGrows, SameShare, MayPaySplits;
    SplitPayFrame(db, user, id, gateway);
    SplitPaySplits(db, user, id, gateway);
    forall r ensures SameSplits(db, PaySplits(db, user, id, gateway), r) {
      SharesStay(db, PaySplits(db, user, id, gateway), r);
    }
  }

  lemma SplitPayEvolves(db: Db, user: Id, id: Id, gateway: string -> Outcome)
    requires Sound(db) && MayPaySplits(db, user, id)
    ensures Evolves(db, PaySplits(db, user, id, gateway), 0, {})
  {
    hide Sum, Sound, PaySplits, SameSplits, ServesKept, EntrySound, RoomEvolves, TotalsEvolve, MayPaySplits;
    var b := PaySplits(db, user, id, gateway);
    Minted(db);
    SplitPayRows(db, user, id, gateway);
    forall k | k in b.ledger && k !in db.ledger ensures ServesKept(db, b.ledger[k].purpose, {}) {
      SplitEntryNew(db, user, id, gateway, k);
    }
    RoomSame(db, b);
    assert PoolPaid(b) == PoolPaid(db);
    TotalsSame(db, b);
  }

  lemma SplitPaySplit(db: Db, user: Id, id: Id, gateway: string -> Outcome, s: Id)
    requires MayPaySplits(db, user, id) && s in db.splits && SplitSound(db, s)
    requires forall s :: s in db.splits ==> s in db.minted && db.splits[s].reward in db.rewards
    ensures SplitSound(PaySplits(db, user, id, gateway), s)
  {
    hide Sum, PoolKey, SplitAmount, Cents;
    var b := PaySplits(db, user, id, gateway);
    var made := SplitTransfers(db, SplitsOf(db, id), gateway);
    SplitPayRows(db, user, id, gateway);
    if SplitKey(s) in b.ledger && SplitKey(s) !in db.ledger {
      assert SplitKey(s) in made && s in SplitsOf(db, id);
      assert made[SplitKey(s)] == SplitTransfer(db, s);
    }
  }

  lemma AllSplitsCharged(db: Db, user: Id, id: Id, gateway: string -> Outcome)
    requires MayPaySplits(db, user, id)
    requires forall s :: s in db.splits ==> s in db.minted && db.splits[s].reward in db.rewards
    ensures PaySplits(db, user, id, gateway).rewards[id].status == Paid ==>
      forall s :: s in SplitsOf(db, id) ==> SplitKey(s) in PaySplits(db, user, id, gateway).ledger
  {
    hide SplitAmount, Cents, SplitRow, SplitTransfer;
    if PaySplits(db, user, id, gateway).rewards[id].status == Paid {
      forall s | s in SplitsOf(db, id) ensures SplitKey(s) in PaySplits(db, user, id, gateway).ledger {
        assert SplitSucceeds(db, s, gateway) && SplitReaches(db, s, gateway);
        assert SplitKey(s) in SplitTransfers(db, SplitsOf(db, id), gateway);
      }
    }
  }

  lemma SplitPayRow(db: Db, user: Id, id: Id, gateway: string -> Outcome, r: Id)
    requires MayPaySplits(db, user, id) && r in db.rewards && RowSound(db, r)
    requires forall s :: s in db.splits ==> s in db.minted && db.splits[s].reward in db.rewards
    ensures RowSound(PaySplits(db, user, id, gateway), r)
  {
    hide Sum, PoolKey, SplitAmount, Cents, SplitRow, SplitTransfers, RowsEvolve;
    var b := PaySplits(db, user, id, gateway);
    SplitPayRows(db, user, id, gateway);
    assert SameSplits(db, b, r);
    if r == id && b.rewards[r].status == Paid {
      AllSplitsCharged(db, user, id, gateway);
    }
  }

  lemma SplitPaySound(db: Db, user: Id, id: Id, gateway: string -> Outcome)
    requires Sound(db) && MayPaySplits(db, user, id)
    ensures Sound(PaySplits(db, user, id, gateway))
  {
    hide Sum, PaySplits, SameSplits, SplitSound, RowSound, EntrySound, MayPaySplits;
    var b := PaySplits(db, user, id, gateway);
    Minted(db);
    SplitPayRows(db, user, id, gateway);
    forall r | r in b.rewards ensures RowSound(b, r) { SplitPayRow(db, user, id, gateway, r); }
    forall s | s in b.splits ensures SplitSound(b, s) { SplitPaySplit(db, user, id, gateway, s); }
    forall k | k in b.ledger ensures EntrySound(b, k) {
      if k in db.ledger { EntryKeeps(db, b, k); } else { SplitEntryNew(db, user, id, gateway, k); }
    }
  }

  lemma SplitPayPreserves(db: Db, user: Id, id: Id, gateway: string -> Outcome)
    requires Sound(db) && MayPaySplits(db, user, id)
    ensures Preserves(db, PaySplits(db, user, id, gateway), true, true)
    ensures PoolsStay(db, PaySplits(db, user, id, gateway))
  {
    hide Sum, Sound, PaySplits, Names, EntrySound, ServesKept;
    var b := PaySplits(db, user, id, gateway);
    Minted(db);
    SplitPayRows(db, user, id, gateway);
    forall k | k in b.ledger && k !in db.ledger ensures InSplit(b, k, id) {
      SplitEntryNew(db, user, id, gateway, k);
    }
    assert forall k, r :: InPool(b, k, r) <==> InPool(db, k, r);
    forall k, r | InSplit(b, k, r) && SplitsKept(db) ensures HasSplits(b, r) {
      assert SameSplits(db, b, r);
      assert k in db.ledger ==> InSplit(db, k, r);
    }
    PoolsStayPreserve(db, b, true);
  }

  /** Rounding takes the nearest integer, and the upper one of two equally near. */
  lemma RoundIs(x: real)
    ensures x - 0.5 < Round(x) as real <= x + 0.5
  {
  }

  lemma CentsAre(amount: int, share: real)
    ensures var cents, x := Cents(SplitAmount(amount, share)), amount as real * (share / 100.0);
      cents % 100 == 0 && x - 0.5 < (cents / 100) as real <= x + 0.5
  {
    var n := SplitAmount(amount, share);
    RoundIs(amount as real * (share / 100.0));
    RoundIs((n * 100) as real);
    assert Cents(n) == 100 * n;
  }

  /**
   * A new split transfer goes to the account of a recipient of the reward, for the recipient's share rounded to the
   * nearest integer, ties upwards, in cents.
   */
  lemma SplitMoneyGoesTo(db: Db, user: Id, id: Id, gateway: string -> Outcome, k: string)
    requires Sound(db) && k in PaySplits(db, user, id, gateway).ledger && k !in db.ledger
    ensures var t := PaySplits(db, user, id, gateway).ledger[k];
      id in db.rewards && t.purpose.ForSplit? && t.purpose.reward == id && t.purpose.split in SplitsOf(db, id) &&
      k == SplitKey(t.purpose.split) &&
      var split := db.splits[t.purpose.split];
      var x := db.rewards[id].amount as real * (split.share / 100.0);
      CanReceive(db, split.researcher) && Some(t.account) == db.profiles[split.researcher].account &&
      t.cents % 100 == 0 && x - 0.5 < (t.cents / 100) as real <= x + 0.5 && t.currency == db.rewards[id].currency &&
      t.cents == Cents(SplitAmount(db.rewards[id].amount, split.share))
  {
    hide Sum, PoolKey, SplitAmount, Cents, Sound, PaySplits, SplitReaches;
    Minted(db);
    var s := NewTransferOf(db, user, id, gateway, k);
    TransferIs(db, s, gateway);
  }

  lemma NewTransferOf(db: Db, user: Id, id: Id, gateway: string -> Outcome, k: string) returns (s: Id)
    requires forall s :: s in db.splits ==> db.splits[s].reward in db.rewards
    requires k in PaySplits(db, user, id, gateway).ledger && k !in db.ledger
    ensures id in db.rewards && s in SplitsOf(db, id) && SplitReaches(db, s, gateway) && k == SplitKey(s)
    ensures PaySplits(db, user, id, gateway).ledger[k] == SplitTransfer(db, s)
  {
    hide SplitAmount, Cents, SplitRow, AllSucceed, IsOwner, SplitTransfer;
    var made := SplitTransfers(db, SplitsOf(db, id), gateway);
    assert k in made;
    s :| s in SplitsOf(db, id) && SplitReaches(db, s, gateway) && k == SplitKey(s);
    assert made[k] == SplitTransfer(db, s);
  }

  lemma TransferIs(db: Db, s: Id, gateway: string -> Outcome)
    requires s in db.splits && db.splits[s].reward in db.rewards && SplitReaches(db, s, gateway)
    ensures var t, split, reward := SplitTransfer(db, s), db.splits[s], db.rewards[db.splits[s].reward];
      var x := reward.amount as real * (split.share / 100.0);
      t.purpose == ForSplit(split.reward, s) && t.currency == reward.currency &&
      CanReceive(db, split.researcher) && Some(t.account) == db.profiles[split.researcher].account &&
      t.cents % 100 == 0 && x - 0.5 < (t.cents / 100) as real <= x + 0.5 &&
      t.cents == Cents(SplitAmount(reward.amount, split.share))
  {
    hide SplitAmount, Cents;
    CentsAre(db.rewards[db.splits[s].reward].amount, db.splits[s].share);
  }

  /** The reward becomes paid exactly if it was approved, its owner asked, and every split was answered for. */
  lemma SplitPaidExactly(db: Db, user: Id, id: Id, gateway: string -> Outcome)
    requires id in db.rewards && db.rewards[id].status != Paid
    ensures PaySplits(db, user, id, gateway).rewards[id].status == Paid <==>
      (db.rewards[id].status == Approved && IsOwner(db, user, db.rewards[id].org) && HasSplits(db, id) &&
       forall s :: s in SplitsOf(db, id) ==>
         Connected(db, db.splits[s].researcher) && gateway(SplitKey(s)) == Sent)
  {
    hide SplitTransfers, SplitRow;
  }

  // ----- batches and runs

  /** How many transfers of a batch failed. */
  ghost function BatchFailures(db: Db, user: Id, ids: seq<Id>, gateway: Gateway): nat
  {
    if ids == [] then 0
    else
      var front := ids[..|ids| - 1];
      var mid := Batch(db, user, front, gateway).db;
      BatchFailures(db, user, front, gateway) + FailureOf(mid, user, ids[|ids| - 1], OutcomeAt(mid, ids, gateway))
  }

  ghost predicate AnswersAll(gateway: Gateway)
  {
    forall n: nat, k: string :: !gateway(n, k).Unanswered?
  }

  lemma {:induction false} BatchKeeps(db: Db, user: Id, ids: seq<Id>, gateway: Gateway)
    requires Sound(db)
    ensures Sound(Batch(db, user, ids, gateway).db)
    ensures Evolves(db, Batch(db, user, ids, gateway).db, BatchFailures(db, user, ids, gateway), {})
    ensures Preserves(db, Batch(db, user, ids, gateway).db, AnswersAll(gateway), true)
    decreases |ids|
  {
    hide Sum, Sound, Preserves, Evolves, MarkPaid, MarkPaidResult, FailureOf, KeyNow;
    if ids == [] {
      EvolvesRefl(db);
      PreservesRefl(db, AnswersAll(gateway));
    } else {
      var front, last := ids[..|ids| - 1], ids[|ids| - 1];
      var mid := Batch(db, user, front, gateway).db;
      var outcome := OutcomeAt(mid, ids, gateway);
      var none: set<Id> := {};
      BatchKeeps(db, user, front, gateway);
      PayStep(mid, user, last, outcome);
      EvolvesTrans(db, mid, MarkPaid(mid, user, last, outcome),
                   BatchFailures(db, user, front, gateway), FailureOf(mid, user, last, outcome), {}, {});
      assert none + none == none;
      PreservesLess(mid, MarkPaid(mid, user, last, outcome), !outcome.Unanswered?, true, AnswersAll(gateway), true);
      PreservesTrans(db, mid, MarkPaid(mid, user, last, outcome), AnswersAll(gateway), true);
    }
  }

  /** The failed pool transfers of one step. */
  ghost function StepFailures(db: Db, step: Step): nat
  {
    match step
    case DoPay(user, id, outcome) => FailureOf(db, user, id, outcome)
    case DoBatch(user, ids, gateway) => BatchFailures(db, user, ids, gateway)
    case _ => 0
  }

  /** The reward whose splits the step replaces. */
  function StepTouches(step: Step): set<Id>
  {
    if step.DoConfigure? then {step.id} else {}
  }

  /** Every pool transfer that the step asks for is answered, one way or the other. */
  ghost predicate AnsweredStep(step: Step)
  {
    match step
    case DoPay(_, _, outcome) => !outcome.Unanswered?
    case DoBatch(_, _, gateway) => AnswersAll(gateway)
    case _ => true
  }

  predicate AcceptedStep(db: Db, step: Step)
  {
    step.DoConfigure? ==> Accepted(db, step.user, step.id, step.shares)
  }

  lemma StepKeeps(db: Db, step: Step)
    requires Sound(db) && Offered(db, step)
    ensures Sound(Apply(db, step))
    ensures Evolves(db, Apply(db, step), StepFailures(db, step), StepTouches(step))
    ensures Preserves(db, Apply(db, step), AnsweredStep(step), AcceptedStep(db, step))
  {
    hide Sum, Sound, Preserves, PoolsStay, Evolves, MarkPaid, Accepted, Batch, BatchFailures, FailureOf, PaySplits,
      Configure, MayConfigure, RowsAccepted, AnswersAll, MayPaySplits;
    match step
    case DoPay(user, id, outcome) => PayStep(db, user, id, outcome);
    case DoBatch(user, ids, gateway) => BatchKeeps(db, user, ids, gateway);
    case DoConfigure(user, id, shares, newIds) =>
      ConfigureSound(db, user, id, shares, newIds);
      ConfigureEvolves(db, user, id, shares, newIds);
      ConfigurePreserves(db, user, id, shares, newIds);
    case DoPaySplits(user, id, gateway) => SplitStep(db, user, id, gateway);
    case _ => QuietStep(db, step);
  }

  lemma SplitStep(db: Db, user: Id, id: Id, gateway: string -> Outcome)
    requires Sound(db)
    ensures var b := PaySplits(db, user, id, gateway);
      Sound(b) && Evolves(db, b, 0, {}) && Preserves(db, b, true, true) && PoolsStay(db, b)
  {
    hide Sum, Sound, Preserves, Evolves, MayPaySplits;
    if MayPaySplits(db, user, id) {
      SplitPaySound(db, user, id, gateway);
      SplitPayEvolves(db, user, id, gateway);
      SplitPayPreserves(db, user, id, gateway);
    } else {
      EvolvesRefl(db);
      PreservesRefl(db, true);
    }
  }

  /** The failed pool transfers of a run. */
  ghost function Failures(db: Db, steps: seq<Step>): nat
    requires Legal(db, steps)
    decreases |steps|
  {
    if steps == [] then 0 else StepFailures(db, steps[0]) + Failures(Apply(db, steps[0]), steps[1..])
  }

  /** The rewards whose splits a run replaces. */
  function Touched(steps: seq<Step>): set<Id>
  {
    if steps == [] then {} else StepTouches(steps[0]) + Touched(steps[1..])
  }

  /** Every pool request of the run is answered. */
  ghost predicate AnsweredRun(steps: seq<Step>)
  {
    steps == [] || (AnsweredStep(steps[0]) && AnsweredRun(steps[1..]))
  }

  /** Every configuration of the run that gets past the guards is accepted by the splits table. */
  ghost predicate AcceptedRun(db: Db, steps: seq<Step>)
    requires Legal(db, steps)
    decreases |steps|
  {
    steps == [] || (AcceptedStep(db, steps[0]) && AcceptedRun(Apply(db, steps[0]), steps[1..]))
  }

  /** Induction over the run: the one place where steps are put together. */
  lemma {:induction false} RunKeeps(db: Db, steps: seq<Step>)
    requires Sound(db) && Legal(db, steps)
    ensures Sound(Run(db, steps))
    ensures Evolves(db, Run(db, steps), Failures(db, steps), Touched(steps))
    ensures Preserves(db, Run(db, steps), AnsweredRun(steps), AcceptedRun(db, steps))
    decreases |steps|
  {
    hide Sum, Sound, Preserves, Evolves, Apply, Offered, StepFailures, AnsweredStep, AcceptedStep, StepTouches;
    if steps == [] {
      EvolvesRefl(db);
      PreservesRefl(db, true);
    } else {
      var next := Apply(db, steps[0]);
      StepKeeps(db, steps[0]);
      RunKeeps(next, steps[1..]);
      EvolvesTrans(db, next, Run(next, steps[1..]), StepFailures(db, steps[0]), Failures(next, steps[1..]),
                   StepTouches(steps[0]), Touched(steps[1..]));
      PreservesLess(db, next, AnsweredStep(steps[0]), AcceptedStep(db, steps[0]),
                    AnsweredRun(steps), AcceptedRun(db, steps));
      PreservesLess(next, Run(next, steps[1..]), AnsweredRun(steps[1..]), AcceptedRun(next, steps[1..]),
                    AnsweredRun(steps), AcceptedRun(db, steps));
      PreservesTrans(db, next, Run(next, steps[1..]), AnsweredRun(steps), AcceptedRun(db, steps));
    }
  }
}
