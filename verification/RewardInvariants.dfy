/** What every reward action keeps, and how the database may change along a run. */
module RewardInvariants {
  import opened Collections
  import opened PoolKeys
  import opened RewardModel

  // ----- state invariants

  /** The reward is for a known submission, of a positive amount, with that submission's people and program. */
  predicate RowFits(db: Db, row: Reward)
  {
    row.submission in db.submissions && row.amount > 0 && row.program in db.totals &&
    var sub := db.submissions[row.submission];
    row.org == sub.org && row.program == sub.program && row.researcher == sub.researcher
  }

  predicate ApprovedByOwner(owners: map<Id, Id>, row: Reward)
  {
    row.org in owners && row.approvedBy == Some(owners[row.org])
  }

  ghost predicate RowSound(db: Db, r: Id)
    requires r in db.rewards
  {
    var row := db.rewards[r];
    RowFits(db, row) && (row.status == Approved || row.status == Paid ==> ApprovedByOwner(db.owners, row)) &&
    (row.transfer.Some? ==>
       row.status == Paid && !HasSplits(db, r) && row.transfer.value in db.ledger &&
       var purpose := db.ledger[row.transfer.value].purpose;
       purpose.ForPool? && r in purpose.pool) &&
    (row.status == Paid && row.transfer.None? ==>
       HasSplits(db, r) && forall s :: s in SplitsOf(db, r) ==> SplitKey(s) in db.ledger)
  }

  ghost predicate SplitSound(db: Db, s: Id)
    requires s in db.splits
  {
    var split := db.splits[s];
    split.reward in db.rewards && s in db.minted &&
    (SplitKey(s) in db.ledger ==>
       var t := db.ledger[SplitKey(s)];
       t.purpose == ForSplit(split.reward, s) && t.currency == db.rewards[split.reward].currency &&
       t.cents == Cents(SplitAmount(db.rewards[split.reward].amount, split.share)))
  }

  /** All rewards of the pool are of one researcher and in this currency. */
  ghost predicate OneGroup(db: Db, pool: set<Id>, currency: string)
    requires pool <= db.rewards.Keys
  {
    (forall r :: r in pool ==> db.rewards[r].currency == currency) &&
    (forall r, s :: r in pool && s in pool ==> db.rewards[r].researcher == db.rewards[s].researcher)
  }

  ghost predicate EntrySound(db: Db, k: string)
    requires k in db.ledger
  {
    match db.ledger[k].purpose
    case ForPool(pool) =>
      pool != {} && pool <= db.rewards.Keys && k == PoolKey(pool) && OneGroup(db, pool, db.ledger[k].currency) &&
      db.ledger[k].cents == 100 * Sum(pool, Amounts(db.rewards))
    case ForSplit(r, s) => r in db.rewards && s in db.minted && k == SplitKey(s)
  }

  /** Holds in every reachable state. */
  ghost predicate Sound(db: Db)
  {
    (forall r :: r in db.rewards ==> RowSound(db, r)) &&
    (forall s :: s in db.splits ==> SplitSound(db, s)) &&
    (forall k :: k in db.ledger ==> EntrySound(db, k)) &&
    (forall b :: b in db.submissions ==> db.submissions[b].program in db.totals)
  }

  ghost predicate InPool(db: Db, k: string, r: Id)
  {
    k in db.ledger && db.ledger[k].purpose.ForPool? && r in db.ledger[k].purpose.pool
  }

  ghost predicate InSplit(db: Db, k: string, r: Id)
  {
    k in db.ledger && db.ledger[k].purpose.ForSplit? && db.ledger[k].purpose.reward == r
  }

  /** The row of r names transfer k as the one that settled it. */
  predicate Names(db: Db, r: Id, k: string)
  {
    r in db.rewards && db.rewards[r].transfer == Some(k)
  }

  /** Either every member of a pool transfer names it or, after a lost reply, none does. */
  ghost predicate Whole(db: Db)
  {
    forall k, r, s :: InPool(db, k, r) && InPool(db, k, s) ==> (Names(db, r, k) <==> Names(db, s, k))
  }

  /** No reward waits for money that the ledger already moved for it as part of a pool. */
  ghost predicate Pooled(db: Db)
  {
    forall k, r :: InPool(db, k, r) ==> Names(db, r, k)
  }

  /** A reward that a split transfer was made for still has splits. */
  ghost predicate SplitsKept(db: Db)
  {
    forall k, r :: InSplit(db, k, r) ==> HasSplits(db, r)
  }

  /** What a step does to these three: the second needs answered requests, the third accepted configurations. */
  ghost predicate Preserves(a: Db, b: Db, answered: bool, accepted: bool)
  {
    (Whole(a) ==> Whole(b)) && (Pooled(a) && answered ==> Pooled(b)) && (SplitsKept(a) && accepted ==> SplitsKept(b))
  }

  lemma PreservesRefl(a: Db, answered: bool)
    ensures Preserves(a, a, answered, true)
  {
  }

  lemma PreservesLess(a: Db, b: Db, answered: bool, accepted: bool, answeredAll: bool, acceptedAll: bool)
    requires Preserves(a, b, answered, accepted) && (answeredAll ==> answered) && (acceptedAll ==> accepted)
    ensures Preserves(a, b, answeredAll, acceptedAll)
  {
    hide Whole, Pooled, SplitsKept;
  }

  lemma PreservesTrans(a: Db, b: Db, c: Db, answered: bool, accepted: bool)
    requires Preserves(a, b, answered, accepted) && Preserves(b, c, answered, accepted)
    ensures Preserves(a, c, answered, accepted)
  {
    hide Whole, Pooled, SplitsKept;
  }

  /** No reward joins or leaves a pool transfer, and none is newly settled by one. */
  ghost predicate PoolsStay(a: Db, b: Db)
  {
    (forall k, r :: InPool(b, k, r) <==> InPool(a, k, r)) &&
    a.rewards.Keys <= b.rewards.Keys &&
    (forall r :: r in a.rewards ==> b.rewards[r].transfer == a.rewards[r].transfer) &&
    (forall r :: r in b.rewards && r !in a.rewards ==> b.rewards[r].transfer.None?)
  }

  lemma PoolsStayPreserve(a: Db, b: Db, accepted: bool)
    requires PoolsStay(a, b)
    requires SplitsKept(a) && accepted ==> SplitsKept(b)
    ensures Preserves(a, b, true, accepted)
  {
    hide InPool, SplitsKept;
    assert forall r, k :: Names(b, r, k) <==> Names(a, r, k);
  }

  // ----- how a state may evolve

  ghost function PoolPaid(db: Db): set<Id>
  {
    set r | r in db.rewards && db.rewards[r].transfer.Some?
  }

  /** The amounts of program p's rewards that pool transfers settled. */
  ghost function SettledIn(db: Db, p: Id): int
  {
    Sum(Part(PoolPaid(db), Programs(db.rewards), p), Amounts(db.rewards))
  }

  function Room(rows: map<Id, Reward>): Id -> int
  {
    id => if id in rows && rows[id].retries < MAX_PAYOUT_RETRIES then MAX_PAYOUT_RETRIES - rows[id].retries else 0
  }

  /** How many attempts the retry caps still leave, over all rewards. */
  ghost function RoomLeft(db: Db): int
  {
    Sum(db.rewards.Keys, Room(db.rewards))
  }

  /** The attempts that n new rewards may make. */
  function Fresh(n: nat): nat
  {
    MAX_PAYOUT_RETRIES * n
  }

  ghost predicate SameFacts(a: Reward, b: Reward)
  {
    a.amount == b.amount && a.program == b.program && a.researcher == b.researcher && a.currency == b.currency &&
    a.submission == b.submission && a.org == b.org
  }

  ghost predicate RowsEvolve(a: Db, b: Db)
  {
    a.rewards.Keys <= b.rewards.Keys &&
    (forall r :: r in a.rewards ==> SameFacts(a.rewards[r], b.rewards[r])) &&
    (forall r :: r in a.rewards && a.rewards[r].status == Paid ==> b.rewards[r] == a.rewards[r]) &&
    (forall r, s :: r in b.rewards && s in b.rewards && r !in a.rewards && s != r ==>
       b.rewards[s].submission != b.rewards[r].submission)
  }

  ghost predicate LedgerGrows(a: Db, b: Db)
  {
    forall k :: k in a.ledger ==> k in b.ledger && b.ledger[k] == a.ledger[k]
  }

  /** The splits of r kept their ids, recipients and shares. */
  ghost predicate SameSplits(a: Db, b: Db, r: Id)
  {
    SplitsOf(a, r) == SplitsOf(b, r) &&
    forall s :: s in SplitsOf(a, r) ==>
      b.splits[s].researcher == a.splits[s].researcher && b.splits[s].share == a.splits[s].share
  }

  ghost predicate ServesKept(a: Db, purpose: Purpose, touched: set<Id>)
  {
    purpose.ForSplit? && purpose.reward !in touched ==> purpose.split in SplitsOf(a, purpose.reward)
  }

  /** Only rewards in touched have their splits replaced, paid ones never; new split transfers serve kept splits. */
  ghost predicate SplitsEvolve(a: Db, b: Db, touched: set<Id>)
  {
    a.minted <= b.minted &&
    (forall r :: r !in touched || (r in a.rewards && a.rewards[r].status == Paid) ==> SameSplits(a, b, r)) &&
    (forall k :: k in b.ledger && k !in a.ledger ==> ServesKept(a, b.ledger[k].purpose, touched))
  }

  ghost predicate TotalsEvolve(a: Db, b: Db)
  {
    a.totals.Keys == b.totals.Keys &&
    forall p :: p in a.totals ==> b.totals[p] - SettledIn(b, p) == a.totals[p] - SettledIn(a, p)
  }

  /** failures transfers failed on the way from a to b. */
  ghost predicate RoomEvolves(a: Db, b: Db, failures: nat)
  {
    RoomLeft(b) + failures <= RoomLeft(a) + Fresh(|b.rewards.Keys - a.rewards.Keys|)
  }

  ghost predicate Evolves(a: Db, b: Db, failures: nat, touched: set<Id>)
  {
    RowsEvolve(a, b) && LedgerGrows(a, b) && SplitsEvolve(a, b, touched) && TotalsEvolve(a, b) &&
    RoomEvolves(a, b, failures)
  }

  lemma EvolvesRefl(a: Db)
    ensures Evolves(a, a, 0, {})
  {
  }

  lemma EvolvesTrans(a: Db, b: Db, c: Db, f: nat, g: nat, t: set<Id>, u: set<Id>)
    requires Evolves(a, b, f, t) && Evolves(b, c, g, u)
    ensures Evolves(a, c, f + g, t + u)
  {
    hide RowsEvolve, LedgerGrows, SplitsEvolve, TotalsEvolve, RoomEvolves;
    RowsTrans(a, b, c);
    SplitsTrans(a, b, c, t, u);
    TotalsTrans(a, b, c);
    RoomTrans(a, b, c, f, g);
  }

  lemma RowsTrans(a: Db, b: Db, c: Db)
    requires RowsEvolve(a, b) && RowsEvolve(b, c) && LedgerGrows(a, b) && LedgerGrows(b, c)
    ensures RowsEvolve(a, c) && LedgerGrows(a, c)
    ensures a.rewards.Keys <= b.rewards.Keys <= c.rewards.Keys
  {
  }

  lemma TotalsTrans(a: Db, b: Db, c: Db)
    requires TotalsEvolve(a, b) && TotalsEvolve(b, c)
    ensures TotalsEvolve(a, c)
  {
    hide SettledIn;
  }

  lemma SplitsTrans(a: Db, b: Db, c: Db, t: set<Id>, u: set<Id>)
    requires RowsEvolve(a, b) && LedgerGrows(b, c)
    requires SplitsEvolve(a, b, t) && SplitsEvolve(b, c, u)
    ensures SplitsEvolve(a, c, t + u)
  {
    forall k | k in c.ledger && k !in a.ledger ensures ServesKept(a, c.ledger[k].purpose, t + u) {
      var purpose := c.ledger[k].purpose;
      if purpose.ForSplit? && purpose.reward !in t + u {
        assert SameSplits(a, b, purpose.reward);
        assert k in b.ledger ==> ServesKept(a, b.ledger[k].purpose, t);
        assert k !in b.ledger ==> ServesKept(b, purpose, u);
      }
    }
    forall r | r !in t + u || (r in a.rewards && a.rewards[r].status == Paid) ensures SameSplits(a, c, r) {
      assert SameSplits(a, b, r) && SameSplits(b, c, r);
    }
  }

  lemma RoomTrans(a: Db, b: Db, c: Db, f: nat, g: nat)
    requires a.rewards.Keys <= b.rewards.Keys <= c.rewards.Keys
    requires RoomEvolves(a, b, f) && RoomEvolves(b, c, g)
    ensures RoomEvolves(a, c, f + g)
  {
    SizeOfSteps(a.rewards.Keys, b.rewards.Keys, c.rewards.Keys);
  }

  lemma SizeOfSteps<T>(a: set<T>, b: set<T>, c: set<T>)
    requires a <= b <= c
    ensures |c - a| == |c - b| + |b - a|
  {
    assert c - a == (c - b) + (b - a);
  }

  // ----- steps that leave payments alone

  lemma SettledSame(a: Db, b: Db, p: Id)
    requires PoolPaid(a) == PoolPaid(b)
    requires forall r :: r in PoolPaid(a) ==> SameFacts(a.rewards[r], b.rewards[r])
    ensures SettledIn(a, p) == SettledIn(b, p)
  {
    assert Part(PoolPaid(a), Programs(a.rewards), p) == Part(PoolPaid(b), Programs(b.rewards), p);
    SumSame(Part(PoolPaid(a), Programs(a.rewards), p), Amounts(a.rewards), Amounts(b.rewards));
  }

  lemma RoomSame(a: Db, b: Db)
    requires a.rewards.Keys <= b.rewards.Keys
    requires forall r :: r in a.rewards ==> a.rewards[r].retries == b.rewards[r].retries
    ensures RoomEvolves(a, b, 0)
  {
    hide Sum;
    var added := b.rewards.Keys - a.rewards.Keys;
    assert b.rewards.Keys == a.rewards.Keys + added;
    SumUnion(a.rewards.Keys, added, Room(b.rewards));
    SumSame(a.rewards.Keys, Room(a.rewards), Room(b.rewards));
    RoomBound(added, b.rewards);
  }

  lemma {:induction false} RoomBound(ids: set<Id>, rows: map<Id, Reward>)
    ensures Sum(ids, Room(rows)) <= Fresh(|ids|)
    decreases ids
  {
    if ids == {} {
    } else {
      var x :| x in ids;
      SumPick(ids, x, Room(rows));
      RoomBound(ids - {x}, rows);
    }
  }

  lemma EntryKeeps(a: Db, b: Db, k: string)
    requires k in a.ledger && EntrySound(a, k) && RowsEvolve(a, b) && a.minted <= b.minted
    requires k in b.ledger && b.ledger[k] == a.ledger[k]
    ensures EntrySound(b, k)
  {
    EntryByFacts(a, b, k);
  }

  lemma EntryByFacts(a: Db, b: Db, k: string)
    requires k in a.ledger && EntrySound(a, k) && a.minted <= b.minted
    requires a.rewards.Keys <= b.rewards.Keys
    requires forall r :: r in a.rewards ==> SameFacts(a.rewards[r], b.rewards[r])
    requires k in b.ledger && b.ledger[k] == a.ledger[k]
    ensures EntrySound(b, k)
  {
    if a.ledger[k].purpose.ForPool? {
      SumSame(a.ledger[k].purpose.pool, Amounts(a.rewards), Amounts(b.rewards));
    }
  }

  /** Payments, splits and totals stay; a row may be added as pending, or a pending one decided. */
  ghost predicate Quiet(a: Db, b: Db)
  {
    b.totals == a.totals && b.splits == a.splits && b.minted == a.minted && b.ledger == a.ledger &&
    b.submissions == a.submissions && b.owners == a.owners && RowsEvolve(a, b) &&
    (forall r :: r in a.rewards ==> QuietRow(a.owners, a.rewards[r], b.rewards[r])) &&
    (forall r :: r in b.rewards && r !in a.rewards ==>
       b.rewards[r].transfer.None? && b.rewards[r].status == Pending && RowFits(b, b.rewards[r]))
  }

  ghost predicate QuietRow(owners: map<Id, Id>, a: Reward, b: Reward)
  {
    a.transfer == b.transfer && a.retries == b.retries &&
    (b.(held := a.held) == a ||
     (a.status == Pending && b.status != Paid && (b.status == Approved ==> ApprovedByOwner(owners, b))))
  }

  lemma QuietSound(a: Db, b: Db)
    requires Sound(a) && Quiet(a, b)
    ensures Sound(b)
  {
    assert forall r :: SplitsOf(a, r) == SplitsOf(b, r);
    forall r | r in b.rewards ensures RowSound(b, r) {
      if r in a.rewards { assert RowSound(a, r); }
    }
    forall s | s in b.splits ensures SplitSound(b, s) {
      assert SplitSound(a, s);
    }
    forall k | k in b.ledger ensures EntrySound(b, k) {
      EntryKeeps(a, b, k);
    }
  }

  lemma QuietPreserves(a: Db, b: Db)
    requires Quiet(a, b)
    ensures Preserves(a, b, true, true) && PoolsStay(a, b)
  {
    hide QuietRow, RowFits, Names;
    assert forall r :: SplitsOf(a, r) == SplitsOf(b, r);
    forall r | r in a.rewards ensures b.rewards[r].transfer == a.rewards[r].transfer {
      QuietTransfer(a.owners, a.rewards[r], b.rewards[r]);
    }
    assert forall k, r :: InSplit(b, k, r) ==> InSplit(a, k, r);
    assert forall k, r :: InPool(b, k, r) <==> InPool(a, k, r);
    PoolsStayPreserve(a, b, true);
  }

  lemma QuietTransfer(owners: map<Id, Id>, a: Reward, b: Reward)
    requires QuietRow(owners, a, b)
    ensures a.transfer == b.transfer
  {
  }

  lemma TotalsSame(a: Db, b: Db)
    requires a.totals == b.totals && PoolPaid(a) == PoolPaid(b)
    requires forall r :: r in PoolPaid(a) ==> SameFacts(a.rewards[r], b.rewards[r])
    ensures TotalsEvolve(a, b)
  {
    hide Sum;
    forall p: Id ensures SettledIn(a, p) == SettledIn(b, p) {
      SettledSame(a, b, p);
    }
  }

  lemma QuietEvolves(a: Db, b: Db)
    requires Sound(a) && Quiet(a, b)
    ensures Evolves(a, b, 0, {})
  {
    hide RoomEvolves, TotalsEvolve;
    assert PoolPaid(a) == PoolPaid(b);
    TotalsSame(a, b);
    RoomSame(a, b);
    assert forall r :: SplitsOf(a, r) == SplitsOf(b, r);
  }

  lemma ProposedFits(db: Db, user: Id, submission: Id, newId: Id, amount: int, currency: string)
    requires MayPropose(db, user, submission, amount) && db.submissions[submission].program in db.totals
    ensures var next := Propose(db, user, submission, newId, amount, currency);
      RowFits(next, next.rewards[newId])
  {
  }

  lemma QuietPropose(db: Db, user: Id, submission: Id, newId: Id, amount: int, currency: string)
    requires Sound(db) && newId !in db.rewards
    ensures Quiet(db, Propose(db, user, submission, newId, amount, currency))
  {
    hide RowSound, SplitSound, EntrySound, RowFits, IsOwner, ApprovedByOwner;
    var next := Propose(db, user, submission, newId, amount, currency);
    assert forall r :: r in db.rewards ==> next.rewards[r] == db.rewards[r];
    if MayPropose(db, user, submission, amount) {
      ProposedFits(db, user, submission, newId, amount, currency);
    }
  }

  lemma QuietDecision(db: Db, id: Id, row: Reward)
    requires id in db.rewards && db.rewards[id].status == Pending && Sound(db)
    requires row.transfer == db.rewards[id].transfer && row.retries == db.rewards[id].retries
    requires SameFacts(db.rewards[id], row) && row.status != Paid
    requires row.status == Approved ==> ApprovedByOwner(db.owners, row)
    ensures Quiet(db, db.(rewards := db.rewards[id := row]))
  {
    hide RowSound, SplitSound, EntrySound;
  }

  lemma QuietProfiles(db: Db, profiles: map<Id, Profile>)
    ensures Quiet(db, db.(profiles := profiles))
  {
  }

  /** Proposing, approving and declining as offered, and profile changes. */
  lemma QuietStep(db: Db, step: Step)
    requires Sound(db) && Offered(db, step)
    requires step.DoPropose? || step.DoApprove? || step.DoDecline? || step.DoConnect?
    ensures Sound(Apply(db, step)) && Evolves(db, Apply(db, step), 0, {})
    ensures Preserves(db, Apply(db, step), true, true) && PoolsStay(db, Apply(db, step))
    ensures Apply(db, step).ledger == db.ledger
  {
    hide Sum, Sound, Preserves, PoolsStay, Evolves, RowsEvolve, QuietRow, Batch, MarkPaid, PaySplits, Configure;
    var next := Apply(db, step);
    match step {
      case DoPropose(user, submission, newId, amount, currency) =>
        QuietPropose(db, user, submission, newId, amount, currency);
      case DoApprove(user, id) =>
        if next != db { QuietDecision(db, id, next.rewards[id]); } else { QuietProfiles(db, db.profiles); }
      case DoDecline(user, id, _) =>
        if next != db { QuietDecision(db, id, next.rewards[id]); } else { QuietProfiles(db, db.profiles); }
      case DoConnect(researcher, profile) =>
        QuietProfiles(db, db.profiles[researcher := profile]);
    }
    QuietSound(db, next);
    QuietEvolves(db, next);
    QuietPreserves(db, next);
  }
}
