/** Where the safety of payouts ends: the exact conditions, and the histories that break them. */
module RewardLimits {
  import opened Collections
  import opened PoolKeys
  import opened RewardModel
  import opened RewardInvariants
  import opened PoolPayments
  import opened RewardRuns
  import opened RewardTheorems

  /** Paying reward id now reaches the provider, and a transfer under its pool's key exists afterwards. */
  ghost predicate Charges(db: Db, user: Id, id: Id, outcome: Outcome)
  {
    PayRefusal(db, user, id).None? && !outcome.Refused? &&
    !ChangeOf(db, db.rewards[id].researcher, db.rewards[id].currency, outcome).Hold?
  }

  ghost function PoolNow(db: Db, id: Id): set<Id>
    requires id in db.rewards
  {
    Pool(db, db.rewards[id].researcher, db.rewards[id].currency)
  }

  lemma ChargedLedger(db: Db, user: Id, id: Id, outcome: Outcome)
    requires Sound(db) && Charges(db, user, id, outcome)
    ensures var b := MarkPaid(db, user, id, outcome);
      b.ledger.Keys == db.ledger.Keys + {KeyNow(db, id)} &&
      b.ledger[KeyNow(db, id)].purpose == ForPool(PoolNow(db, id)) &&
      (forall k :: k in db.ledger ==> b.ledger[k] == db.ledger[k])
  {
    hide Sum, PoolKey, RowSound, SplitSound, EntrySound, Rewrite, AddByProgram, PoolTotal;
    TriggerPayable(db, user, id);
    if KeyNow(db, id) in db.ledger {
      assert EntrySound(db, KeyNow(db, id));
      KeyHoldsPool(db, PoolNow(db, id));
    }
  }

  lemma UnchargedLedger(db: Db, user: Id, id: Id, outcome: Outcome)
    requires !Charges(db, user, id, outcome)
    ensures MarkPaid(db, user, id, outcome).ledger == db.ledger
  {
    hide Sum, PoolKey, Rewrite, AddByProgram, PoolTotal, Pool, PoolTransfer, Connected, IsOwner;
  }

  /** The payment charges nothing, or its very pool is known, or no member of it is in a pool transfer. */
  ghost predicate PaysOnce(db: Db, user: Id, id: Id, outcome: Outcome)
  {
    Charges(db, user, id, outcome) ==>
      KeyNow(db, id) in db.ledger || forall r, k :: r in PoolNow(db, id) ==> !InPool(db, k, r)
  }

  /** The payment charges nothing, or no member of its pool has a split transfer. */
  ghost predicate PaysApart(db: Db, user: Id, id: Id, outcome: Outcome)
  {
    Charges(db, user, id, outcome) ==> forall r, k :: r in PoolNow(db, id) ==> !InSplit(db, k, r)
  }

  lemma SameLedger(a: Db, b: Db)
    requires a.ledger == b.ledger
    ensures OncePooled(a) <==> OncePooled(b)
    ensures NeverBoth(a) <==> NeverBoth(b)
  {
    assert forall k, r :: InPool(a, k, r) <==> InPool(b, k, r);
    assert forall k, r :: InSplit(a, k, r) <==> InSplit(b, k, r);
  }

  /** A payment keeps every reward in at most one pool transfer exactly when it pays once. */
  lemma PayOnceIff(db: Db, user: Id, id: Id, outcome: Outcome)
    requires Sound(db) && OncePooled(db)
    ensures OncePooled(MarkPaid(db, user, id, outcome)) <==> PaysOnce(db, user, id, outcome)
  {
    hide Sum, PoolKey, Sound, MarkPaid, KeyNow, Pool, ChangeOf, Connected, IsOwner, HasSplits;
    var b := MarkPaid(db, user, id, outcome);
    if Charges(db, user, id, outcome) {
      var key := KeyNow(db, id);
      ChargedLedger(db, user, id, outcome);
      assert forall k, r :: InPool(b, k, r) <==> InPool(db, k, r) || (k == key && r in PoolNow(db, id));
      forall r, k | r in PoolNow(db, id) && InPool(db, k, r) ensures InPool(b, k, r) && InPool(b, key, r) {
      }
      if key in db.ledger {
        assert forall k, r :: InPool(b, k, r) <==> InPool(db, k, r);
      }
    } else {
      UnchargedLedger(db, user, id, outcome);
      SameLedger(db, b);
    }
  }

  /** It keeps pools and splits apart exactly when no member of a charged pool has a split transfer. */
  lemma PayNeverBothIff(db: Db, user: Id, id: Id, outcome: Outcome)
    requires Sound(db) && NeverBoth(db)
    ensures NeverBoth(MarkPaid(db, user, id, outcome)) <==> PaysApart(db, user, id, outcome)
  {
    hide Sum, PoolKey, Sound, MarkPaid, KeyNow, Pool, ChangeOf, Connected, IsOwner, HasSplits;
    var b := MarkPaid(db, user, id, outcome);
    if Charges(db, user, id, outcome) {
      var key := KeyNow(db, id);
      ChargedLedger(db, user, id, outcome);
      assert forall k, r :: InPool(b, k, r) <==> InPool(db, k, r) || (k == key && r in PoolNow(db, id));
      assert forall k, r :: InSplit(b, k, r) <==> InSplit(db, k, r);
      assert forall r :: r in PoolNow(db, id) ==> InPool(b, key, r);
    } else {
      UnchargedLedger(db, user, id, outcome);
      SameLedger(db, b);
    }
  }

  /** The split payout does not start, or the reward is in no pool transfer, or no request reaches the provider. */
  ghost predicate SplitsApart(db: Db, user: Id, id: Id, gateway: string -> Outcome)
  {
    MayPaySplits(db, user, id) ==>
      (forall k :: !InPool(db, k, id)) || forall s :: s in SplitsOf(db, id) ==> !SplitReaches(db, s, gateway)
  }

  /** What a split payout adds to the split transfers. */
  lemma SplitLedger(db: Db, user: Id, id: Id, gateway: string -> Outcome)
    requires Sound(db) && MayPaySplits(db, user, id)
    ensures var b := PaySplits(db, user, id, gateway);
      (forall k, r :: InSplit(b, k, r) ==> InSplit(db, k, r) || r == id) &&
      (forall k, r :: InSplit(db, k, r) ==> InSplit(b, k, r)) &&
      (forall s :: s in SplitsOf(db, id) && SplitReaches(db, s, gateway) ==> InSplit(b, SplitKey(s), id)) &&
      ((forall s :: s in SplitsOf(db, id) ==> !SplitReaches(db, s, gateway)) ==> b.ledger == db.ledger)
  {
    hide Sum, PoolKey, Sound, SplitReaches, EntrySound, ServesKept, PaySplits, InPool;
    var b := PaySplits(db, user, id, gateway);
    Minted(db);
    SplitPayFrame(db, user, id, gateway);
    forall k | k in b.ledger && k !in db.ledger ensures InSplit(b, k, id) {
      SplitEntryNew(db, user, id, gateway, k);
    }
    forall s | s in SplitsOf(db, id) && SplitReaches(db, s, gateway) ensures InSplit(b, SplitKey(s), id) {
      SplitReached(db, user, id, gateway, s);
    }
    if forall s :: s in SplitsOf(db, id) ==> !SplitReaches(db, s, gateway) { NoneReached(db, user, id, gateway); }
  }

  lemma NoneReached(db: Db, user: Id, id: Id, gateway: string -> Outcome)
    requires MayPaySplits(db, user, id)
    requires forall s :: s in db.splits ==> db.splits[s].reward in db.rewards
    requires forall s :: s in SplitsOf(db, id) ==> !SplitReaches(db, s, gateway)
    ensures PaySplits(db, user, id, gateway).ledger == db.ledger
  {
    hide SplitReaches, SplitTransfer, SplitRow, AllSucceed;
    assert SplitTransfers(db, SplitsOf(db, id), gateway) == map[];
  }

  lemma SplitReached(db: Db, user: Id, id: Id, gateway: string -> Outcome, s: Id)
    requires Sound(db) && MayPaySplits(db, user, id) && s in SplitsOf(db, id) && SplitReaches(db, s, gateway)
    ensures InSplit(PaySplits(db, user, id, gateway), SplitKey(s), id)
  {
    hide Sum, PoolKey, EntrySound, RowSound, SplitAmount, Cents, IsOwner;
    Minted(db);
    assert SplitSound(db, s);
    var made := SplitTransfers(db, SplitsOf(db, id), gateway);
    assert SplitKey(s) in made;
    assert made[SplitKey(s)] == SplitTransfer(db, s);
  }

  /** A split payout keeps pools and splits apart exactly when it does not follow a pool transfer of its reward. */
  lemma SplitsNeverBothIff(db: Db, user: Id, id: Id, gateway: string -> Outcome)
    requires Sound(db) && NeverBoth(db)
    ensures NeverBoth(PaySplits(db, user, id, gateway)) <==> SplitsApart(db, user, id, gateway)
  {
    hide Sum, PoolKey, Sound, PaySplits, SplitReaches, MayPaySplits, Preserves, Evolves, InSplit, InPool;
    var b := PaySplits(db, user, id, gateway);
    SplitStep(db, user, id, gateway);
    if MayPaySplits(db, user, id) {
      SplitLedger(db, user, id, gateway);
    } else {
      NoSplitPay(db, user, id, gateway);
    }
    SameLedgerApart(db, b);
  }

  lemma NoSplitPay(db: Db, user: Id, id: Id, gateway: string -> Outcome)
    requires !MayPaySplits(db, user, id)
    ensures PaySplits(db, user, id, gateway) == db
  {
  }

  lemma SameLedgerApart(a: Db, b: Db)
    ensures a.ledger == b.ledger ==> (NeverBoth(a) <==> NeverBoth(b))
  {
    if a.ledger == b.ledger { SameLedger(a, b); }
  }

  // ----- whole runs

  /** A reward in two pool transfers stays in both, and one settled both ways stays so. */
  lemma NeverRegained(a: Db, b: Db)
    requires LedgerGrows(a, b)
    ensures OncePooled(b) ==> OncePooled(a)
    ensures NeverBoth(b) ==> NeverBoth(a)
  {
    assert forall k, r :: InPool(a, k, r) ==> InPool(b, k, r);
    assert forall k, r :: InSplit(a, k, r) ==> InSplit(b, k, r);
  }

  /** Every payment of the batch pays once. */
  ghost predicate BatchOnce(db: Db, user: Id, ids: seq<Id>, gateway: Gateway)
  {
    ids == [] ||
    var front := ids[..|ids| - 1];
    var mid := Batch(db, user, front, gateway).db;
    BatchOnce(db, user, front, gateway) && PaysOnce(mid, user, ids[|ids| - 1], OutcomeAt(mid, ids, gateway))
  }

  ghost predicate BatchApart(db: Db, user: Id, ids: seq<Id>, gateway: Gateway)
  {
    ids == [] ||
    var front := ids[..|ids| - 1];
    var mid := Batch(db, user, front, gateway).db;
    BatchApart(db, user, front, gateway) && PaysApart(mid, user, ids[|ids| - 1], OutcomeAt(mid, ids, gateway))
  }

  lemma {:induction false} BatchIff(db: Db, user: Id, ids: seq<Id>, gateway: Gateway)
    requires Sound(db)
    ensures OncePooled(db) ==>
      (OncePooled(Batch(db, user, ids, gateway).db) <==> BatchOnce(db, user, ids, gateway))
    ensures NeverBoth(db) ==>
      (NeverBoth(Batch(db, user, ids, gateway).db) <==> BatchApart(db, user, ids, gateway))
    decreases |ids|
  {
    hide Sum, Sound, Preserves, RowsEvolve, SplitsEvolve, TotalsEvolve, RoomEvolves, LedgerGrows, MarkPaid,
      MarkPaidResult, OncePooled, NeverBoth, PaysOnce, PaysApart, KeyNow, OutcomeAt;
    if ids == [] {
    } else {
      var front, last := ids[..|ids| - 1], ids[|ids| - 1];
      var mid := Batch(db, user, front, gateway).db;
      var outcome := OutcomeAt(mid, ids, gateway);
      BatchIff(db, user, front, gateway);
      BatchKeeps(db, user, front, gateway);
      PayStep(mid, user, last, outcome);
      NeverRegained(mid, MarkPaid(mid, user, last, outcome));
      if OncePooled(mid) { PayOnceIff(mid, user, last, outcome); }
      if NeverBoth(mid) { PayNeverBothIff(mid, user, last, outcome); }
    }
  }

  ghost predicate StepOnce(db: Db, step: Step)
  {
    match step
    case DoPay(user, id, outcome) => PaysOnce(db, user, id, outcome)
    case DoBatch(user, ids, gateway) => BatchOnce(db, user, ids, gateway)
    case _ => true
  }

  ghost predicate StepApart(db: Db, step: Step)
  {
    match step
    case DoPay(user, id, outcome) => PaysApart(db, user, id, outcome)
    case DoBatch(user, ids, gateway) => BatchApart(db, user, ids, gateway)
    case DoPaySplits(user, id, gateway) => SplitsApart(db, user, id, gateway)
    case _ => true
  }

  lemma StepIff(db: Db, step: Step)
    requires Sound(db) && Offered(db, step)
    ensures OncePooled(db) ==> (OncePooled(Apply(db, step)) <==> StepOnce(db, step))
    ensures NeverBoth(db) ==> (NeverBoth(Apply(db, step)) <==> StepApart(db, step))
  {
    hide Sum, Sound, Preserves, Evolves, MarkPaid, Batch, PaySplits, Configure, OncePooled, NeverBoth, PaysOnce,
      PaysApart, BatchOnce, BatchApart, SplitsApart, PoolsStay, Propose, Approve, Decline;
    match step
    case DoPay(user, id, outcome) =>
      if OncePooled(db) { PayOnceIff(db, user, id, outcome); }
      if NeverBoth(db) { PayNeverBothIff(db, user, id, outcome); }
    case DoBatch(user, ids, gateway) => BatchIff(db, user, ids, gateway);
    case DoConfigure(user, id, shares, newIds) =>
      ConfigureFrame(db, user, id, shares, newIds);
      SameLedger(db, Apply(db, step));
    case DoPaySplits(user, id, gateway) =>
      SplitStep(db, user, id, gateway);
      SamePools(db, Apply(db, step));
      if NeverBoth(db) { SplitsNeverBothIff(db, user, id, gateway); }
    case _ =>
      QuietStep(db, step);
      SameLedger(db, Apply(db, step));
  }

  lemma SamePools(a: Db, b: Db)
    requires PoolsStay(a, b)
    ensures OncePooled(a) <==> OncePooled(b)
  {
    hide InPool;
  }

  ghost predicate RunOnce(db: Db, steps: seq<Step>)
    requires Legal(db, steps)
    decreases |steps|
  {
    steps == [] || (StepOnce(db, steps[0]) && RunOnce(Apply(db, steps[0]), steps[1..]))
  }

  ghost predicate RunApart(db: Db, steps: seq<Step>)
    requires Legal(db, steps)
    decreases |steps|
  {
    steps == [] || (StepApart(db, steps[0]) && RunApart(Apply(db, steps[0]), steps[1..]))
  }

  lemma {:induction false} RunIff(db: Db, steps: seq<Step>)
    requires Sound(db) && Legal(db, steps)
    ensures OncePooled(db) ==> (OncePooled(Run(db, steps)) <==> RunOnce(db, steps))
    ensures NeverBoth(db) ==> (NeverBoth(Run(db, steps)) <==> RunApart(db, steps))
    decreases |steps|
  {
    hide Sum, Sound, Preserves, RowsEvolve, SplitsEvolve, TotalsEvolve, RoomEvolves, LedgerGrows, Apply, Offered,
      OncePooled, NeverBoth, StepOnce, StepApart, StepFailures, Failures, Touched, StepTouches, AnsweredRun,
      AcceptedRun;
    if steps == [] {
    } else {
      var next := Apply(db, steps[0]);
      StepKeeps(db, steps[0]);
      StepIff(db, steps[0]);
      RunIff(next, steps[1..]);
      RunKeeps(next, steps[1..]);
      NeverRegained(next, Run(next, steps[1..]));
    }
  }

  /**
   * Whatever is answered, rejected or lost: a run leaves each reward in at most one pool transfer exactly when each
   * payment in it, batches included, charged nothing, or a pool the ledger knew, or no member it had charged before.
   */
  lemma RunOnceIff(db: Db, steps: seq<Step>)
    requires Initial(db) && Legal(db, steps)
    ensures OncePooled(Run(db, steps)) <==> RunOnce(db, steps)
  {
    hide Sound, Run, RunOnce, RunApart, SettledIn, RoomLeft;
    InitialIsGood(db);
    RunIff(db, steps);
  }

  /** And none settled by both a pool and splits exactly when no payment of one kind followed one of the other. */
  lemma RunNeverBothIff(db: Db, steps: seq<Step>)
    requires Initial(db) && Legal(db, steps)
    ensures NeverBoth(Run(db, steps)) <==> RunApart(db, steps)
  {
    hide Sound, Run, RunOnce, RunApart, SettledIn, RoomLeft;
    InitialIsGood(db);
    RunIff(db, steps);
  }

  // ----- which payments break conservation

  /** Keys whose transfers no reward names: a lost reply opens its pool's key, a payment that settles closes it. */
  ghost function OpenPay(db: Db, user: Id, id: Id, outcome: Outcome, open: set<string>): set<string>
  {
    if !Charges(db, user, id, outcome) then open
    else if outcome.Sent? then open - {KeyNow(db, id)}
    else open + {KeyNow(db, id)}
  }

  ghost function OpenBatch(db: Db, user: Id, ids: seq<Id>, gateway: Gateway, open: set<string>): set<string>
  {
    if ids == [] then open
    else
      var front := ids[..|ids| - 1];
      var mid := Batch(db, user, front, gateway).db;
      OpenPay(mid, user, ids[|ids| - 1], OutcomeAt(mid, ids, gateway), OpenBatch(db, user, front, gateway, open))
  }

  ghost function OpenStep(db: Db, step: Step, open: set<string>): set<string>
  {
    match step
    case DoPay(user, id, outcome) => OpenPay(db, user, id, outcome, open)
    case DoBatch(user, ids, gateway) => OpenBatch(db, user, ids, gateway, open)
    case _ => open
  }

  ghost function OpenRun(db: Db, steps: seq<Step>, open: set<string>): set<string>
    requires Legal(db, steps)
    decreases |steps|
  {
    if steps == [] then open else OpenRun(Apply(db, steps[0]), steps[1..], OpenStep(db, steps[0], open))
  }

  lemma UnnamedPay(db: Db, user: Id, id: Id, outcome: Outcome)
    requires Sound(db)
    ensures Unnamed(MarkPaid(db, user, id, outcome)) == OpenPay(db, user, id, outcome, Unnamed(db))
  {
    hide Sum, PoolKey, Sound, PayPool, Pool, Names, InPool, KeyNow, IsOwner, HasSplits, PoolTotal;
    var b := MarkPaid(db, user, id, outcome);
    if PayRefusal(db, user, id).None? {
      TriggerPayable(db, user, id);
      var r, c := db.rewards[id].researcher, db.rewards[id].currency;
      PayNames(db, r, c, outcome);
      PoolUnnamed(db, r, c);
      PoolKeysPaid(db, user, id, outcome);
      KeyIsPool(db, id);
      NamedNotPooled(db, r, c);
      NamedAfter(db, b, Pool(db, r, c), KeyNow(db, id), ChangeOf(db, r, c, outcome).Settle?, id);
      assert KeyNow(db, id) == PoolKey(Pool(db, r, c));
    }
  }

  lemma NamedAfter(db: Db, b: Db, pool: set<Id>, key: string, settles: bool, id: Id)
    requires id in pool && forall r, k :: r in pool ==> !Names(db, r, k)
    requires forall k, r :: Names(b, r, k) <==> if settles && r in pool then k == key else Names(db, r, k)
    ensures forall k :: Named(b, k) <==> Named(db, k) || (settles && k == key)
  {
    hide Names;
    forall k | Named(b, k) && !(settles && k == key) ensures Named(db, k) {
      var r :| Names(b, r, k);
      assert Names(db, r, k);
    }
    forall k | Named(db, k) ensures Named(b, k) {
      var r :| Names(db, r, k);
      assert Names(b, r, k);
    }
    if settles { assert Names(b, id, key); }
  }

  lemma KeyIsPool(db: Db, id: Id)
    requires id in db.rewards
    ensures KeyNow(db, id) == PoolKey(PoolNow(db, id))
  {
  }

  /** A pool that can be paid has no named transfer. */
  lemma NamedNotPooled(db: Db, researcher: Id, currency: string)
    requires Sound(db) && Pool(db, researcher, currency) != {}
    ensures !Named(db, PoolKey(Pool(db, researcher, currency)))
  {
    hide Sum, PoolKey, SplitSound, EntrySound, RowFits;
    var pool := Pool(db, researcher, currency);
    var key := PoolKey(pool);
    PoolUnnamed(db, researcher, currency);
    if r :| Names(db, r, key) {
      assert RowSound(db, r) && EntrySound(db, key);
      KeyHoldsPool(db, pool);
    }
  }

  lemma PoolKeysPaid(db: Db, user: Id, id: Id, outcome: Outcome)
    requires Sound(db)
    ensures PoolKeysOf(MarkPaid(db, user, id, outcome)) ==
            PoolKeysOf(db) + if Charges(db, user, id, outcome) then {KeyNow(db, id)} else {}
  {
    hide Sum, PoolKey, Sound, MarkPaid, KeyNow, Charges;
    if Charges(db, user, id, outcome) {
      ChargedInBounds(db, user, id, outcome);
      ChargedLedger(db, user, id, outcome);
    } else {
      UnchargedLedger(db, user, id, outcome);
    }
  }

  lemma ChargedInBounds(db: Db, user: Id, id: Id, outcome: Outcome)
    requires Charges(db, user, id, outcome)
    ensures id in db.rewards
  {
  }

  lemma {:induction false} UnnamedBatch(db: Db, user: Id, ids: seq<Id>, gateway: Gateway)
    requires Sound(db)
    ensures Unnamed(Batch(db, user, ids, gateway).db) == OpenBatch(db, user, ids, gateway, Unnamed(db))
    decreases |ids|
  {
    hide Sum, Sound, Preserves, Evolves, MarkPaid, MarkPaidResult, Unnamed, OpenPay, KeyNow, OutcomeAt;
    if ids == [] {
    } else {
      var front, last := ids[..|ids| - 1], ids[|ids| - 1];
      var mid := Batch(db, user, front, gateway).db;
      UnnamedBatch(db, user, front, gateway);
      BatchKeeps(db, user, front, gateway);
      UnnamedPay(mid, user, last, OutcomeAt(mid, ids, gateway));
    }
  }

  lemma UnnamedStays(a: Db, b: Db)
    requires Sound(a) && Sound(b) && PoolsStay(a, b)
    ensures Unnamed(a) == Unnamed(b)
  {
    hide Sum, PoolKey, RowSound, SplitSound, Names;
    NamesStay(a, b);
    forall k ensures k in PoolKeysOf(a) <==> k in PoolKeysOf(b) {
      if k in a.ledger { assert EntrySound(a, k); }
      if k in b.ledger { assert EntrySound(b, k); }
      if k in PoolKeysOf(a) { var r :| r in a.ledger[k].purpose.pool; assert InPool(a, k, r); }
      if k in PoolKeysOf(b) { var r :| r in b.ledger[k].purpose.pool; assert InPool(b, k, r); }
    }
  }

  lemma NamesStay(a: Db, b: Db)
    requires PoolsStay(a, b)
    ensures forall r, k :: Names(a, r, k) <==> Names(b, r, k)
  {
    hide InPool;
  }

  lemma UnnamedStep(db: Db, step: Step)
    requires Sound(db) && Offered(db, step)
    ensures Unnamed(Apply(db, step)) == OpenStep(db, step, Unnamed(db))
  {
    hide Sum, Sound, Preserves, Evolves, MarkPaid, Batch, PaySplits, Configure, PoolsStay, Propose, Approve, Decline,
      Unnamed, OpenPay, OpenBatch;
    StepKeeps(db, step);
    match step
    case DoPay(user, id, outcome) => UnnamedPay(db, user, id, outcome);
    case DoBatch(user, ids, gateway) => UnnamedBatch(db, user, ids, gateway);
    case DoConfigure(user, id, shares, newIds) =>
      ConfigurePreserves(db, user, id, shares, newIds);
      UnnamedStays(db, Apply(db, step));
    case DoPaySplits(user, id, gateway) =>
      SplitStep(db, user, id, gateway);
      UnnamedStays(db, Apply(db, step));
    case _ =>
      QuietStep(db, step);
      UnnamedStays(db, Apply(db, step));
  }

  lemma {:induction false} UnnamedRun(db: Db, steps: seq<Step>)
    requires Sound(db) && Legal(db, steps)
    ensures Unnamed(Run(db, steps)) == OpenRun(db, steps, Unnamed(db))
    decreases |steps|
  {
    hide Sum, Sound, Preserves, Evolves, Apply, Offered, Unnamed, OpenStep, StepFailures;
    if steps == [] {
    } else {
      StepKeeps(db, steps[0]);
      UnnamedStep(db, steps[0]);
      UnnamedRun(Apply(db, steps[0]), steps[1..]);
    }
  }

  /**
   * A run conserves money exactly when each pool transfer whose reply was lost is followed by a payment of the very
   * same pool that is answered.
   */
  lemma MoneyConservedByStepsIff(db: Db, steps: seq<Step>)
    requires Initial(db) && Legal(db, steps)
    ensures var end := Run(db, steps);
      Sum(PoolKeysOf(end), CentsIn(end.ledger)) == 100 * Growth(db, end) <==> OpenRun(db, steps, {}) == {}
  {
    hide Sum, Sound, Run, OpenRun, Growth, PoolKeysOf, Whole, Pooled, SplitsKept, SettledIn, RoomLeft;
    InitialIsGood(db);
    assert Unnamed(db) == {} by { NothingPooled(db); }
    UnnamedRun(db, steps);
    MoneyConservedIff(db, steps);
  }

  lemma NothingPooled(db: Db)
    requires Initial(db)
    ensures PoolKeysOf(db) == {}
  {
  }

  // ----- lost replies

  /**
   * A retry of the same pool adds no second transfer: as long as the researcher's approved rewards are the same set,
   * the key is the one the ledger holds.
   */
  lemma RetryAddsNothing(db: Db, user: Id, id: Id, later: Db, lateUser: Id, lateId: Id, outcome: Outcome)
    requires Sound(db) && Charges(db, user, id, Unanswered)
    requires LedgerGrows(MarkPaid(db, user, id, Unanswered), later)
    requires PayRefusal(later, lateUser, lateId).None? && PoolNow(later, lateId) == PoolNow(db, id)
    ensures MarkPaid(later, lateUser, lateId, outcome).ledger == later.ledger
  {
    hide Sum, PoolKey, Sound;
    ChargedLedger(db, user, id, Unanswered);
  }

  /**
   * Otherwise it does: a payment whose reply was lost, one more approval for the same researcher, and the retry
   * moves the money of the first reward a second time.
   */
  lemma LostReplyPaysTwice(db: Db, user: Id, id: Id, owner: Id, other: Id)
    requires Sound(db) && Charges(db, user, id, Unanswered)
    requires other in db.rewards && db.rewards[other].status == Pending && !HasSplits(db, other)
    requires IsOwner(db, owner, db.rewards[other].org) && db.rewards[other].amount > 0
    requires InGroup(db, other, db.rewards[id].researcher, db.rewards[id].currency)
    requires db.rewards[id].retries < MAX_PAYOUT_RETRIES - 1
    ensures var lost := MarkPaid(db, user, id, Unanswered);
      var approved := Approve(lost, owner, other);
      !OncePooled(MarkPaid(approved, user, id, Sent))
  {
    hide Sum, PoolKey, Sound, Evolves, MarkPaid, Approve, Charges, Pool;
    var lost := MarkPaid(db, user, id, Unanswered);
    var approved := Approve(lost, owner, other);
    LostPool(db, user, id, owner, other);
    LostOther(db, user, id, owner, other);
    var first, second := PoolNow(db, id), PoolNow(approved, id);
    ChargedLedger(db, user, id, Unanswered);
    PayStep(db, user, id, Unanswered);
    QuietStep(lost, DoApprove(owner, other));
    ChargedLedger(approved, user, id, Sent);
    var paid := MarkPaid(approved, user, id, Sent);
    assert KeyNow(db, id) != KeyNow(approved, id) by { PoolKeyInjective(first, second); }
    assert InPool(paid, KeyNow(db, id), id) && InPool(paid, KeyNow(approved, id), id);
  }

  /** After the lost reply and the approval the pool has grown by the approved reward and is still payable. */
  lemma LostPool(db: Db, user: Id, id: Id, owner: Id, other: Id)
    requires Charges(db, user, id, Unanswered)
    requires other in db.rewards && db.rewards[other].status == Pending && !HasSplits(db, other)
    requires IsOwner(db, owner, db.rewards[other].org) && db.rewards[other].amount > 0
    requires InGroup(db, other, db.rewards[id].researcher, db.rewards[id].currency)
    requires db.rewards[id].retries < MAX_PAYOUT_RETRIES - 1
    ensures var approved := Approve(MarkPaid(db, user, id, Unanswered), owner, other);
      id in db.rewards && id in approved.rewards && Charges(approved, user, id, Sent) &&
      PoolNow(approved, id) == PoolNow(db, id) + {other} && id in PoolNow(db, id) && other !in PoolNow(db, id)
  {
    hide Sum, PoolKey, CreateTransfer, PoolTransfer;
    var r, c := db.rewards[id].researcher, db.rewards[id].currency;
    var approved := Approve(MarkPaid(db, user, id, Unanswered), owner, other);
    TriggerPayable(db, user, id);
    LostRows(db, user, id, owner, other);
    assert forall x :: SplitsOf(approved, x) == SplitsOf(db, x);
    PoolGrows(db, approved, r, c, other);
    LargerPool(db.rewards, approved.rewards, Pool(db, r, c), other);
  }

  ghost predicate SameForPayment(a: Reward, b: Reward)
  {
    SameFacts(a, b) && a.status == b.status
  }

  lemma LostRows(db: Db, user: Id, id: Id, owner: Id, other: Id)
    requires Charges(db, user, id, Unanswered)
    requires other in db.rewards && db.rewards[other].status == Pending && IsOwner(db, owner, db.rewards[other].org)
    ensures var approved := Approve(MarkPaid(db, user, id, Unanswered), owner, other);
      approved.rewards.Keys == db.rewards.Keys &&
      (forall x :: x in db.rewards && x != other ==> SameForPayment(db.rewards[x], approved.rewards[x])) &&
      SameFacts(db.rewards[other], approved.rewards[other]) && approved.rewards[other].status == Approved &&
      approved.rewards[id].retries == db.rewards[id].retries + 1
  {
    hide Sum, PoolKey, CreateTransfer, PoolTransfer, AddByProgram, PoolTotal;
    TriggerPayable(db, user, id);
  }

  lemma LostOther(db: Db, user: Id, id: Id, owner: Id, other: Id)
    requires other in db.rewards && db.rewards[other].status == Pending
    ensures var lost := MarkPaid(db, user, id, Unanswered);
      other in lost.rewards && lost.rewards[other].status == Pending &&
      Approve(lost, owner, other).ledger == lost.ledger
  {
    hide Sum, PoolKey, CreateTransfer, PoolTransfer, ChangeOf;
  }

  lemma PoolGrows(a: Db, b: Db, r: Id, c: string, other: Id)
    requires a.rewards.Keys == b.rewards.Keys && a.splits == b.splits
    requires forall x :: x in a.rewards && x != other ==> SameForPayment(a.rewards[x], b.rewards[x])
    requires InGroup(a, other, r, c) && a.rewards[other].status == Pending && !HasSplits(a, other)
    requires SameFacts(a.rewards[other], b.rewards[other]) && b.rewards[other].status == Approved
    ensures Pool(b, r, c) == Pool(a, r, c) + {other}
  {
    assert forall x :: SplitsOf(a, x) == SplitsOf(b, x);
  }

  lemma LargerPool(a: map<Id, Reward>, b: map<Id, Reward>, pool: set<Id>, other: Id)
    requires pool <= a.Keys && a.Keys <= b.Keys && other in a && other !in pool && a[other].amount > 0
    requires forall x :: x in a ==> b[x].amount == a[x].amount
    ensures Sum(pool + {other}, Amounts(b)) >= Sum(pool, Amounts(a))
  {
    hide Sum;
    SumPick(pool + {other}, other, Amounts(b));
    assert pool + {other} - {other} == pool;
    SumSame(pool, Amounts(a), Amounts(b));
  }

  /** A lost reply leaves the reward approved, in a pool transfer that its row does not name. */
  lemma LostStays(db: Db, user: Id, id: Id)
    requires Sound(db) && Charges(db, user, id, Unanswered)
    ensures var lost := MarkPaid(db, user, id, Unanswered);
      id in lost.rewards && lost.rewards[id].status == Approved && InPool(lost, KeyNow(db, id), id)
  {
    hide Sum, PoolKey, Sound, CreateTransfer, PoolTransfer, AddByProgram, PoolTotal, KeyNow;
    TriggerPayable(db, user, id);
    ChargedLedger(db, user, id, Unanswered);
  }

  /** After a lost reply the owner may configure splits, and their payout moves money of the reward a second time. */
  lemma LostReplyThenSplitsPayTwice(db: Db, user: Id, id: Id, shares: seq<Share>, newIds: seq<Id>, i: nat,
                                    gateway: string -> Outcome)
    requires Sound(db) && Charges(db, user, id, Unanswered)
    requires var lost := MarkPaid(db, user, id, Unanswered);
      WellMinted(lost, shares, newIds) && MayConfigure(lost, user, id, shares) && RowsAccepted(lost, shares)
    requires i < |shares| && !gateway(SplitKey(newIds[i])).Refused?
    requires Connected(MarkPaid(db, user, id, Unanswered), shares[i].researcher)
    ensures var split := Configure(MarkPaid(db, user, id, Unanswered), user, id, shares, newIds);
      !NeverBoth(PaySplits(split, user, id, gateway))
  {
    hide Sum, PoolKey, Sound, MarkPaid, KeyNow, Charges, Evolves, Preserves, Configure, RowsAccepted, SumsToHundred,
      PaySplits, InPool, InSplit;
    var lost := MarkPaid(db, user, id, Unanswered);
    var split := Configure(lost, user, id, shares, newIds);
    LostStays(db, user, id);
    PayStep(db, user, id, Unanswered);
    ConfigureSound(lost, user, id, shares, newIds);
    ConfigurePreserves(lost, user, id, shares, newIds);
    ConfigureFrame(lost, user, id, shares, newIds);
    ConfigureLeavesSplits(lost, user, id, shares, newIds);
    ConfiguredReach(lost, user, id, shares, newIds, i, gateway);
    SplitReached(split, user, id, gateway, newIds[i]);
    SplitStep(split, user, id, gateway);
    assert InPool(PaySplits(split, user, id, gateway), KeyNow(db, id), id);
  }

  lemma ConfiguredReach(db: Db, user: Id, id: Id, shares: seq<Share>, newIds: seq<Id>, i: nat,
                        gateway: string -> Outcome)
    requires WellMinted(db, shares, newIds) && MayConfigure(db, user, id, shares) && RowsAccepted(db, shares)
    requires i < |shares| && !gateway(SplitKey(newIds[i])).Refused? && Connected(db, shares[i].researcher)
    ensures var b := Configure(db, user, id, shares, newIds);
      newIds[i] in b.splits && newIds[i] in SplitsOf(b, id) && SplitReaches(b, newIds[i], gateway) &&
      b.splits[newIds[i]].researcher == shares[i].researcher
  {
    hide RowsAccepted, Stored, SumsToHundred;
    var rows := NewSplits(id, shares, newIds);
    assert newIds[i] in rows && rows[newIds[i]].researcher == shares[i].researcher;
  }

  /**
   * A new configuration that the splits table rejects leaves the reward without splits; if some old split was
   * already paid, the next pool payment settles the reward a second time.
   */
  lemma RejectedSplitsPayTwice(db: Db, user: Id, id: Id, shares: seq<Share>, newIds: seq<Id>, k: string)
    requires Sound(db) && id in db.rewards && InSplit(db, k, id) && WellMinted(db, shares, newIds)
    requires MayConfigure(db, user, id, shares) && !RowsAccepted(db, shares)
    requires Charges(Configure(db, user, id, shares, newIds), user, id, Sent)
    ensures !NeverBoth(MarkPaid(Configure(db, user, id, shares, newIds), user, id, Sent))
  {
    hide Sum, PoolKey, Sound, RowsAccepted, SumsToHundred, NewSplits, KeyNow;
    var bare := Configure(db, user, id, shares, newIds);
    ConfigureSound(db, user, id, shares, newIds);
    ChargedLedger(bare, user, id, Sent);
    var paid := MarkPaid(bare, user, id, Sent);
    assert InPool(paid, KeyNow(bare, id), id) && InSplit(paid, k, id);
  }
}
