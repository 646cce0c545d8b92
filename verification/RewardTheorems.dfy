/** What the rewards module is for: nobody is paid twice, no money appears or vanishes, retries end. */
module RewardTheorems {
  import opened Collections
  import opened PoolKeys
  import opened RewardModel
  import opened RewardInvariants
  import opened RewardRuns

  /** Before the first proposal. */
  ghost predicate Initial(db: Db)
  {
    db.rewards == map[] && db.splits == map[] && db.minted == {} && db.ledger == map[] &&
    forall b :: b in db.submissions ==> db.submissions[b].program in db.totals
  }

  ghost predicate OncePooled(db: Db)
  {
    forall j, k, r :: InPool(db, j, r) && InPool(db, k, r) ==> j == k
  }

  ghost predicate NeverBoth(db: Db)
  {
    forall j, k, r :: InPool(db, j, r) ==> !InSplit(db, k, r)
  }

  ghost predicate HumanApproved(db: Db)
  {
    forall r :: r in db.rewards && (db.rewards[r].status == Approved || db.rewards[r].status == Paid) ==>
      ApprovedByOwner(db.owners, db.rewards[r])
  }

  /** No submission is rewarded twice, and each reward is for its submission's researcher and program. */
  ghost predicate OnePerSubmission(db: Db)
  {
    (forall r, s :: r in db.rewards && s in db.rewards && db.rewards[r].submission == db.rewards[s].submission ==>
       r == s) &&
    forall r :: r in db.rewards ==> RowFits(db, db.rewards[r])
  }

  /** A paid reward is in exactly the pool transfer it names, or each of its splits has its transfer. */
  ghost predicate PaidForReal(db: Db)
  {
    forall r :: r in db.rewards && db.rewards[r].status == Paid ==>
      match db.rewards[r].transfer
      case Some(k) => InPool(db, k, r) && !HasSplits(db, r)
      case None => HasSplits(db, r) && forall s :: s in SplitsOf(db, r) ==> InSplit(db, SplitKey(s), r)
  }

  // ----- safety

  lemma PooledOnce(db: Db)
    requires Pooled(db)
    ensures OncePooled(db)
  {
    hide InPool;
    forall j, k, r | InPool(db, j, r) && InPool(db, k, r) ensures j == k {
      assert Names(db, r, j) && Names(db, r, k);
    }
  }

  lemma KeptApart(db: Db)
    requires Sound(db) && Pooled(db) && SplitsKept(db)
    ensures NeverBoth(db)
  {
    hide Sum, PoolKey, SplitSound, EntrySound, InPool, InSplit;
    forall j, k, r | InPool(db, j, r) ensures !InSplit(db, k, r) {
      assert Names(db, r, j) && RowSound(db, r);
    }
  }

  lemma SoundIsBacked(db: Db)
    requires Sound(db)
    ensures HumanApproved(db) && PaidForReal(db) && forall r :: r in db.rewards ==> RowFits(db, db.rewards[r])
  {
    hide Sum, PoolKey, EntrySound, SplitAmount, Cents;
    assert forall r :: r in db.rewards ==> RowSound(db, r);
    forall r | r in db.rewards && db.rewards[r].status == Paid && db.rewards[r].transfer.None?
      ensures forall s :: s in SplitsOf(db, r) ==> InSplit(db, SplitKey(s), r)
    {
      assert forall s :: s in SplitsOf(db, r) ==> SplitSound(db, s);
    }
  }

  lemma InitialIsGood(db: Db)
    requires Initial(db)
    ensures Sound(db) && Whole(db) && Pooled(db) && SplitsKept(db) && RoomLeft(db) == 0
    ensures forall p :: SettledIn(db, p) == 0
  {
    assert PoolPaid(db) == {};
    assert forall p: Id :: Part(PoolPaid(db), Programs(db.rewards), p) == {};
  }

  /**
   * Over every run of offered steps: whatever is approved or paid was approved by its organization's owner, whatever
   * is paid has its transfers, and no submission is rewarded twice. If every pool request was answered, each reward is
   * in at most one pool transfer; if besides the splits table rejected no configuration, none is settled by both a
   * pool and splits.
   */
  lemma Settlement(db: Db, steps: seq<Step>)
    requires Initial(db) && Legal(db, steps)
    ensures HumanApproved(Run(db, steps)) && PaidForReal(Run(db, steps)) && OnePerSubmission(Run(db, steps))
    ensures AnsweredRun(steps) ==> OncePooled(Run(db, steps))
    ensures AnsweredRun(steps) && AcceptedRun(db, steps) ==> NeverBoth(Run(db, steps))
  {
    hide Sound, Whole, Pooled, SplitsKept, Run, AnsweredRun, AcceptedRun, OncePooled, NeverBoth, HumanApproved,
      PaidForReal, RowFits, TotalsEvolve, SplitsEvolve, RoomEvolves, LedgerGrows;
    InitialIsGood(db);
    RunKeeps(db, steps);
    SoundIsBacked(Run(db, steps));
    if AnsweredRun(steps) {
      PooledOnce(Run(db, steps));
      if AcceptedRun(db, steps) { KeptApart(Run(db, steps)); }
    }
  }

  // ----- conservation

  /** In every reachable state a program's total has grown by the amounts of its rewards that pools settled. */
  lemma ProgramConservation(db: Db, steps: seq<Step>, p: Id)
    requires Initial(db) && Legal(db, steps) && p in db.totals
    ensures p in Run(db, steps).totals
    ensures Run(db, steps).totals[p] == db.totals[p] + SettledIn(Run(db, steps), p)
  {
    hide Sum, Sound, Run, Initial, SettledIn;
    InitialIsGood(db);
    RunKeeps(db, steps);
  }

  ghost function PoolKeysOf(db: Db): set<string>
  {
    set k | k in db.ledger && db.ledger[k].purpose.ForPool?
  }

  function CentsIn(ledger: Ledger): string -> int
  {
    k => if k in ledger then ledger[k].cents else 0
  }

  function Totals(totals: map<Id, int>): Id -> int
  {
    p => if p in totals then totals[p] else 0
  }

  function TransferOf(rows: map<Id, Reward>): Id -> string
  {
    r => if r in rows && rows[r].transfer.Some? then rows[r].transfer.value else ""
  }

  /** Some reward names transfer k as the one that settled it. */
  ghost predicate Named(db: Db, k: string)
  {
    exists r :: Names(db, r, k)
  }

  /** The pool transfers that were made but that no reward names: their replies were lost and never made up for. */
  ghost function Unnamed(db: Db): set<string>
  {
    set k | k in PoolKeysOf(db) && !Named(db, k)
  }

  /** The cents of the pool transfers that rewards name are those of all pool-settled rewards. */
  lemma NamedCents(db: Db)
    requires Sound(db) && Whole(db)
    ensures Sum(PoolKeysOf(db) - Unnamed(db), CentsIn(db.ledger)) == 100 * Sum(PoolPaid(db), Amounts(db.rewards))
  {
    hide Sum, PoolKey, SplitSound, Whole, EntrySound;
    var via := TransferOf(db.rewards);
    var paid, keys := PoolPaid(db), PoolKeysOf(db) - Unnamed(db);
    var perKey := k => Sum(Part(paid, via, k), Amounts(db.rewards));
    forall r | r in paid ensures via(r) in keys { assert RowSound(db, r) && Names(db, r, via(r)); }
    forall k | k in keys ensures CentsIn(db.ledger)(k) == 100 * perKey(k) { EntryCents(db, k); }
    SumScale(keys, 100, perKey, CentsIn(db.ledger));
    SumByPart(paid, keys, via, Amounts(db.rewards), perKey);
  }

  lemma EntryCents(db: Db, k: string)
    requires Sound(db) && Whole(db) && k in PoolKeysOf(db) && Named(db, k)
    ensures db.ledger[k].cents == 100 * Sum(Part(PoolPaid(db), TransferOf(db.rewards), k), Amounts(db.rewards))
  {
    hide Sum, PoolKey, SplitSound, RowFits, ApprovedByOwner, OneGroup, HasSplits;
    assert EntrySound(db, k);
    var first :| Names(db, first, k);
    assert RowSound(db, first) && InPool(db, k, first);
    var members := Part(PoolPaid(db), TransferOf(db.rewards), k);
    forall r | r in members ensures r in db.ledger[k].purpose.pool { assert RowSound(db, r); }
    forall r | r in db.ledger[k].purpose.pool ensures r in members { assert InPool(db, k, r) && Names(db, r, k); }
    assert members == db.ledger[k].purpose.pool;
  }

  lemma PooledNamesAll(db: Db)
    requires Sound(db) && Pooled(db)
    ensures Unnamed(db) == {}
  {
    hide Sum, PoolKey, RowSound, SplitSound;
    forall k | k in PoolKeysOf(db) ensures Named(db, k) {
      assert EntrySound(db, k);
      var r :| r in db.ledger[k].purpose.pool;
      assert InPool(db, k, r) && Names(db, r, k);
    }
  }

  /** How much the totals of all programs together have grown. */
  ghost function Growth(a: Db, b: Db): int
  {
    Sum(b.totals.Keys, Totals(b.totals)) - Sum(a.totals.Keys, Totals(a.totals))
  }

  /**
   * In every run, lost replies included, the money that pool transfers moved is the growth of all programs' totals and
   * the money of the transfers that no reward names.
   */
  lemma MoneyLaw(db: Db, steps: seq<Step>)
    requires Initial(db) && Legal(db, steps)
    ensures var end := Run(db, steps);
      Sum(PoolKeysOf(end), CentsIn(end.ledger)) == 100 * Growth(db, end) + Sum(Unnamed(end), CentsIn(end.ledger))
  {
    hide Sum, Sound, Whole, Pooled, SplitsKept, Run, Initial, SettledIn, RowsEvolve, LedgerGrows, SplitsEvolve,
      RoomEvolves, RoomLeft, Named;
    var end := Run(db, steps);
    InitialIsGood(db);
    RunKeeps(db, steps);
    NamedCents(end);
    TotalsBySettled(db, end);
    SumUnion(PoolKeysOf(end) - Unnamed(end), Unnamed(end), CentsIn(end.ledger));
    assert PoolKeysOf(end) - Unnamed(end) + Unnamed(end) == PoolKeysOf(end);
  }

  /** When every pool request was answered, the totals have grown by exactly the money the pool transfers moved. */
  lemma MoneyConservation(db: Db, steps: seq<Step>)
    requires Initial(db) && Legal(db, steps) && AnsweredRun(steps)
    ensures var end := Run(db, steps);
      Sum(PoolKeysOf(end), CentsIn(end.ledger)) == 100 * Growth(db, end)
  {
    hide Sound, Whole, Pooled, SplitsKept, Run, Initial, SettledIn, AnsweredRun, Evolves, Growth, Unnamed, PoolKeysOf;
    InitialIsGood(db);
    RunKeeps(db, steps);
    MoneyLaw(db, steps);
    PooledNamesAll(Run(db, steps));
  }

  lemma {:induction false} SumPositive<T>(s: set<T>, f: T -> int)
    requires s != {} && forall x :: x in s ==> f(x) > 0
    ensures Sum(s, f) > 0
    decreases s
  {
    var x :| x in s;
    SumPick(s, x, f);
    if s - {x} != {} { SumPositive(s - {x}, f); }
  }

  /** Whatever was answered, totals and transferred money agree exactly when a reward names every pool transfer. */
  lemma MoneyConservedIff(db: Db, steps: seq<Step>)
    requires Initial(db) && Legal(db, steps)
    ensures var end := Run(db, steps);
      Sum(PoolKeysOf(end), CentsIn(end.ledger)) == 100 * Growth(db, end) <==> Unnamed(end) == {}
  {
    hide Sum, Sound, Whole, Pooled, SplitsKept, Run, Initial, SettledIn, Evolves, Growth, Named;
    var end := Run(db, steps);
    InitialIsGood(db);
    RunKeeps(db, steps);
    MoneyLaw(db, steps);
    if Unnamed(end) == {} { assert Sum(Unnamed(end), CentsIn(end.ledger)) == 0 by { NoSum(CentsIn(end.ledger)); } }
    else {
      forall k | k in Unnamed(end) ensures CentsIn(end.ledger)(k) > 0 { PoolCentsPositive(end, k); }
      SumPositive(Unnamed(end), CentsIn(end.ledger));
    }
  }

  lemma NoSum<T>(f: T -> int)
    ensures Sum({}, f) == 0
  {
  }

  lemma PoolCentsPositive(db: Db, k: string)
    requires Sound(db) && k in PoolKeysOf(db)
    ensures db.ledger[k].cents > 0
  {
    hide Sum, PoolKey, SplitSound;
    assert EntrySound(db, k);
    var pool := db.ledger[k].purpose.pool;
    forall r | r in pool ensures Amounts(db.rewards)(r) > 0 { assert RowSound(db, r); }
    SumPositive(pool, Amounts(db.rewards));
  }

  lemma TotalsBySettled(a: Db, b: Db)
    requires a.totals.Keys == b.totals.Keys && Sound(b)
    requires forall p :: p in a.totals ==> b.totals[p] == a.totals[p] + SettledIn(b, p)
    ensures Sum(b.totals.Keys, Totals(b.totals)) ==
            Sum(a.totals.Keys, Totals(a.totals)) + Sum(PoolPaid(b), Amounts(b.rewards))
  {
    hide Sum, SplitSound, EntrySound;
    var programs := a.totals.Keys;
    var settled := p => Sum(Part(PoolPaid(b), Programs(b.rewards), p), Amounts(b.rewards));
    forall r | r in PoolPaid(b) ensures Programs(b.rewards)(r) in programs { assert RowSound(b, r); }
    SumByPart(PoolPaid(b), programs, Programs(b.rewards), Amounts(b.rewards), settled);
    SumPlus(programs, Totals(a.totals), settled, Totals(b.totals));
  }

  // ----- retries

  /** In any run, n rewards cause at most 5n failed pool transfers. */
  lemma RetriesBounded(db: Db, steps: seq<Step>)
    requires Initial(db) && Legal(db, steps)
    ensures Failures(db, steps) <= MAX_PAYOUT_RETRIES * |Run(db, steps).rewards|
  {
    hide Sum, Sound, Whole, Pooled, SplitsKept, Run, Failures, Initial, SettledIn, RowsEvolve, LedgerGrows,
      SplitsEvolve, TotalsEvolve;
    var end := Run(db, steps);
    InitialIsGood(db);
    RunKeeps(db, steps);
    assert db.rewards == map[] by { NoRewards(db); }
    assert end.rewards.Keys - db.rewards.Keys == end.rewards.Keys;
    RoomNonnegative(end.rewards.Keys, end.rewards);
  }

  lemma NoRewards(db: Db)
    requires Initial(db)
    ensures db.rewards == map[]
  {
  }

  lemma {:induction false} RoomNonnegative(ids: set<Id>, rows: map<Id, Reward>)
    ensures Sum(ids, Room(rows)) >= 0
    decreases ids
  {
    if ids == {} {
    } else {
      var x :| x in ids;
      SumPick(ids, x, Room(rows));
      RoomNonnegative(ids - {x}, rows);
    }
  }

  // ----- split payouts

  function KeysOfSplits(splits: set<Id>): set<string>
  {
    set s | s in splits :: SplitKey(s)
  }

  ghost function SplitTransfersOf(db: Db, r: Id): set<string>
  {
    set k | k in db.ledger && InSplit(db, k, r)
  }

  /** What split s of a reward of this amount is worth, by the share configured for it. */
  function WorthOf(splits: map<Id, Split>, amount: int): Id -> int
  {
    s => if s in splits then SplitAmount(amount, splits[s].share) else 0
  }

  /** Split transfers of r whose split rows have been replaced. */
  ghost function Stale(db: Db, r: Id): set<string>
  {
    SplitTransfersOf(db, r) - KeysOfSplits(SplitsOf(db, r))
  }

  /**
   * While the splits of reward r stay as configured, any run (with lost replies, refusals, unconnected researchers
   * and retries) adds at most one transfer per split; and once r is paid the ledger holds exactly one per split,
   * together 100 times the sum of the rounded split amounts, besides those of replaced splits.
   */
  lemma SplitsPaidWithStale(db: Db, steps: seq<Step>, r: Id)
    requires Sound(db) && Legal(db, steps) && r in db.rewards && HasSplits(db, r) && r !in Touched(steps)
    ensures var end := Run(db, steps);
      Stale(end, r) == Stale(db, r) && SplitTransfersOf(end, r) <= KeysOfSplits(SplitsOf(db, r)) + Stale(db, r)
    ensures var end := Run(db, steps);
      r in end.rewards && (end.rewards[r].status == Paid ==>
        SplitTransfersOf(end, r) == KeysOfSplits(SplitsOf(db, r)) + Stale(db, r) &&
        Sum(SplitTransfersOf(end, r), CentsIn(end.ledger)) ==
        100 * Sum(SplitsOf(db, r), WorthOf(db.splits, db.rewards[r].amount)) + Sum(Stale(db, r), CentsIn(db.ledger)))
  {
    hide Sum, Run, Touched, Sound, Whole, Pooled, SplitsKept, TotalsEvolve, RoomEvolves;
    var end := Run(db, steps);
    RunKeeps(db, steps);
    assert SameSplits(db, end, r);
    OnlyKept(db, end, Touched(steps), r);
    assert Stale(end, r) == Stale(db, r);
    if end.rewards[r].status == Paid {
      PaidSplits(end, r);
      var keys := KeysOfSplits(SplitsOf(db, r));
      assert SplitTransfersOf(end, r) == keys + Stale(db, r);
      SumUnion(keys, Stale(db, r), CentsIn(end.ledger));
      SplitCents(end, r);
      SumSame(SplitsOf(db, r), WorthOf(db.splits, db.rewards[r].amount), WorthOf(end.splits, end.rewards[r].amount));
      SumSame(Stale(db, r), CentsIn(db.ledger), CentsIn(end.ledger));
    }
  }

  /** If no transfer was made for a replaced split, there is at most one per split, and exactly one once r is paid. */
  lemma SplitsExactlyOnce(db: Db, steps: seq<Step>, r: Id)
    requires Sound(db) && Legal(db, steps) && r in db.rewards && HasSplits(db, r) && r !in Touched(steps)
    requires Stale(db, r) == {}
    ensures var end := Run(db, steps);
      SplitTransfersOf(end, r) <= KeysOfSplits(SplitsOf(db, r))
    ensures var end := Run(db, steps);
      r in end.rewards && (end.rewards[r].status == Paid ==>
        SplitTransfersOf(end, r) == KeysOfSplits(SplitsOf(db, r)) &&
        Sum(SplitTransfersOf(end, r), CentsIn(end.ledger)) ==
        100 * Sum(SplitsOf(db, r), WorthOf(db.splits, db.rewards[r].amount)))
  {
    hide Sum, Run, Touched, Sound, Stale, KeysOfSplits, SplitTransfersOf;
    SplitsPaidWithStale(db, steps, r);
    NoSum(CentsIn(db.ledger));
  }

  lemma OnlyKept(a: Db, b: Db, touched: set<Id>, r: Id)
    requires LedgerGrows(a, b) && SplitsEvolve(a, b, touched) && r !in touched && Sound(b)
    ensures SplitTransfersOf(b, r) <= KeysOfSplits(SplitsOf(a, r)) + SplitTransfersOf(a, r)
  {
    hide Sum, PoolKey, RowSound, SplitSound;
    forall k | k in SplitTransfersOf(b, r) && k !in a.ledger ensures k in KeysOfSplits(SplitsOf(a, r)) {
      assert ServesKept(a, b.ledger[k].purpose, touched) && EntrySound(b, k);
    }
  }

  /** The step is the owner's payout of r's splits while r is approved, and every recipient's request is answered. */
  ghost predicate PaysAllSplits(db: Db, step: Step, r: Id)
  {
    step.DoPaySplits? && step.id == r && r in db.rewards && db.rewards[r].status == Approved &&
    IsOwner(db, step.user, db.rewards[r].org) &&
    forall s :: s in SplitsOf(db, r) ==>
      Connected(db, db.splits[s].researcher) && step.splitGateway(SplitKey(s)) == Sent
  }

  ghost predicate SomeStepPays(db: Db, steps: seq<Step>, r: Id)
    requires Legal(db, steps)
    decreases |steps|
  {
    steps != [] && (PaysAllSplits(db, steps[0], r) || SomeStepPays(Apply(db, steps[0]), steps[1..], r))
  }

  /** A reward whose splits stay configured becomes paid in a run exactly by a payout answered for all splits. */
  lemma {:induction false} SplitRewardPaidIff(db: Db, steps: seq<Step>, r: Id)
    requires Sound(db) && Legal(db, steps) && r in db.rewards && HasSplits(db, r) && r !in Touched(steps)
    requires db.rewards[r].status != Paid
    ensures r in Run(db, steps).rewards
    ensures Run(db, steps).rewards[r].status == Paid <==> SomeStepPays(db, steps, r)
    decreases |steps|
  {
    hide Sound, Apply, Offered, PaysAllSplits, TotalsEvolve, RoomEvolves, Preserves, LedgerGrows, HasSplits;
    if steps == [] {
    } else {
      var next := Apply(db, steps[0]);
      StepKeeps(db, steps[0]);
      StillHasSplits(db, next, StepTouches(steps[0]), r);
      StepPaysIff(db, steps[0], r);
      if next.rewards[r].status == Paid {
        RunKeeps(next, steps[1..]);
      } else {
        SplitRewardPaidIff(next, steps[1..], r);
      }
    }
  }

  lemma StillHasSplits(a: Db, b: Db, touched: set<Id>, r: Id)
    requires SplitsEvolve(a, b, touched) && r !in touched && HasSplits(a, r)
    ensures HasSplits(b, r)
  {
    assert SameSplits(a, b, r);
  }

  lemma StepPaysIff(db: Db, step: Step, r: Id)
    requires Sound(db) && Offered(db, step) && r in db.rewards && HasSplits(db, r) && r !in StepTouches(step)
    requires db.rewards[r].status != Paid
    ensures r in Apply(db, step).rewards
    ensures Apply(db, step).rewards[r].status == Paid <==> PaysAllSplits(db, step, r)
  {
    hide Sum, Sound, HasSplits, Batch, MarkPaid, PaySplits, IsOwner, Configure, Propose, Approve, Decline;
    match step
    case DoPay(user, id, outcome) => PayLeavesSplit(db, user, id, outcome, r);
    case DoBatch(user, ids, gateway) => BatchLeavesSplit(db, user, ids, gateway, r);
    case DoPaySplits(user, id, gateway) =>
      PayLeavesOther(db, user, id, gateway, r);
      if id == r { SplitPaidExactly(db, user, id, gateway); }
    case _ => OthersPayNone(db, step, r);
  }

  lemma OthersPayNone(db: Db, step: Step, r: Id)
    requires Offered(db, step) && r in db.rewards && db.rewards[r].status != Paid
    requires !step.DoPay? && !step.DoBatch? && !step.DoPaySplits?
    ensures r in Apply(db, step).rewards && Apply(db, step).rewards[r].status != Paid
  {
    hide Batch, MarkPaid, PaySplits, MayPropose, IsOwner, MayConfigure, RowsAccepted, NewSplits, WellMinted;
  }

  lemma PayLeavesOther(db: Db, user: Id, id: Id, gateway: string -> Outcome, r: Id)
    requires r in db.rewards
    ensures r in PaySplits(db, user, id, gateway).rewards
    ensures SameFacts(db.rewards[r], PaySplits(db, user, id, gateway).rewards[r])
    ensures id != r ==> PaySplits(db, user, id, gateway).rewards[r] == db.rewards[r]
  {
    hide SplitTransfers, SplitRow, AllSucceed, IsOwner;
  }

  lemma PayLeavesSplit(db: Db, user: Id, id: Id, outcome: Outcome, r: Id)
    requires r in db.rewards && HasSplits(db, r)
    ensures var b := MarkPaid(db, user, id, outcome);
      r in b.rewards && b.rewards[r] == db.rewards[r] && b.splits == db.splits
  {
    hide Sum, PoolKey, ChangeOf, AddByProgram, CreateTransfer, PoolTransfer, Connected, IsOwner;
  }

  lemma {:induction false} BatchLeavesSplit(db: Db, user: Id, ids: seq<Id>, gateway: Gateway, r: Id)
    requires r in db.rewards && HasSplits(db, r)
    ensures var b := Batch(db, user, ids, gateway).db;
      r in b.rewards && b.rewards[r] == db.rewards[r] && b.splits == db.splits
    decreases |ids|
  {
    hide MarkPaid, MarkPaidResult, OutcomeAt;
    if ids == [] {
    } else {
      var mid := Batch(db, user, ids[..|ids| - 1], gateway).db;
      BatchLeavesSplit(db, user, ids[..|ids| - 1], gateway, r);
      assert SplitsOf(mid, r) == SplitsOf(db, r);
      PayLeavesSplit(mid, user, ids[|ids| - 1], OutcomeAt(mid, ids, gateway), r);
    }
  }

  lemma PaidSplits(db: Db, r: Id)
    requires Sound(db) && r in db.rewards && HasSplits(db, r) && db.rewards[r].status == Paid
    ensures KeysOfSplits(SplitsOf(db, r)) <= SplitTransfersOf(db, r)
    ensures forall s :: s in SplitsOf(db, r) ==>
      SplitKey(s) in db.ledger &&
      db.ledger[SplitKey(s)].cents == 100 * SplitAmount(db.rewards[r].amount, db.splits[s].share)
  {
    hide Sum, PoolKey, EntrySound, SplitAmount;
    assert RowSound(db, r);
    assert forall s :: s in SplitsOf(db, r) ==> SplitSound(db, s);
  }

  lemma SplitCents(db: Db, r: Id)
    requires Sound(db) && r in db.rewards && HasSplits(db, r) && db.rewards[r].status == Paid
    ensures Sum(KeysOfSplits(SplitsOf(db, r)), CentsIn(db.ledger)) ==
            100 * Sum(SplitsOf(db, r), WorthOf(db.splits, db.rewards[r].amount))
  {
    hide Sum, Sound, SplitAmount;
    var splits, worth := SplitsOf(db, r), WorthOf(db.splits, db.rewards[r].amount);
    PaidSplits(db, r);
    var charged := (s: Id) => CentsIn(db.ledger)(SplitKey(s));
    SumByKey(splits, CentsIn(db.ledger), charged);
    SumScale(splits, 100, worth, charged);
  }

  lemma {:induction false} SumByKey(splits: set<Id>, f: string -> int, g: Id -> int)
    requires forall s :: s in splits ==> g(s) == f(SplitKey(s))
    ensures Sum(KeysOfSplits(splits), f) == Sum(splits, g)
    decreases splits
  {
    if splits == {} {
      assert KeysOfSplits(splits) == {};
    } else {
      var s :| s in splits;
      SumPick(splits, s, g);
      SumPick(KeysOfSplits(splits), SplitKey(s), f);
      forall t | t in splits && SplitKey(t) == SplitKey(s) ensures t == s { KeysApart({}, s, t); }
      assert KeysOfSplits(splits) - {SplitKey(s)} == KeysOfSplits(splits - {s});
      SumByKey(splits - {s}, f, g);
    }
  }
}
