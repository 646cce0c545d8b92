/** Paying a pool keeps the invariants, moves totals by exactly what it settles, and uses up retries when it fails. */
module PoolPayments {
  import opened Collections
  import opened PoolKeys
  import opened RewardModel
  import opened RewardInvariants

  /** The payment of group (researcher, currency) is past its guards, with member id below the retry cap. */
  ghost predicate Payable(db: Db, researcher: Id, currency: string, id: Id)
  {
    Connected(db, researcher) && id in Pool(db, researcher, currency) &&
    db.rewards[id].retries < MAX_PAYOUT_RETRIES
  }

  lemma TriggerPayable(db: Db, user: Id, id: Id)
    requires PayRefusal(db, user, id).None?
    ensures Payable(db, db.rewards[id].researcher, db.rewards[id].currency, id)
  {
  }

  /** Whatever the ledger holds under a pool's key pays for that pool. */
  lemma KeyHoldsPool(db: Db, pool: set<Id>)
    requires pool != {} && PoolKey(pool) in db.ledger && EntrySound(db, PoolKey(pool))
    ensures db.ledger[PoolKey(pool)].purpose == ForPool(pool)
  {
    match db.ledger[PoolKey(pool)].purpose
    case ForPool(other) => PoolKeyInjective(pool, other);
    case ForSplit(_, s) => KeysApart(pool, s, s);
  }

  lemma PayRows(db: Db, researcher: Id, currency: string, outcome: Outcome)
    requires Connected(db, researcher)
    ensures RowsEvolve(db, PayPool(db, researcher, currency, outcome))
    ensures LedgerGrows(db, PayPool(db, researcher, currency, outcome))
    ensures SplitsEvolve(db, PayPool(db, researcher, currency, outcome), {})
  {
    hide Sum, PoolKey;
    var b := PayPool(db, researcher, currency, outcome);
    assert forall r :: SplitsOf(db, r) == SplitsOf(b, r);
  }

  /** The transfer that a payment adds pays for exactly its pool, in full. */
  lemma NewEntry(db: Db, researcher: Id, currency: string, id: Id, outcome: Outcome, k: string)
    requires Payable(db, researcher, currency, id)
    requires k in PayPool(db, researcher, currency, outcome).ledger && k !in db.ledger
    ensures EntrySound(PayPool(db, researcher, currency, outcome), k)
  {
    hide Sum, PoolKey, RowsEvolve, ChangeOf;
    var b := PayPool(db, researcher, currency, outcome);
    SumSame(Pool(db, researcher, currency), Amounts(db.rewards), Amounts(b.rewards));
  }

  lemma PayEntries(db: Db, researcher: Id, currency: string, id: Id, outcome: Outcome)
    requires Sound(db) && Payable(db, researcher, currency, id)
    ensures var b := PayPool(db, researcher, currency, outcome);
      forall k :: k in b.ledger ==> EntrySound(b, k)
  {
    hide PoolKey, RowSound, SplitSound, EntrySound, RowsEvolve, PayPool;
    var b := PayPool(db, researcher, currency, outcome);
    PayRows(db, researcher, currency, outcome);
    PayMinted(db, researcher, currency, outcome);
    forall k | k in b.ledger ensures EntrySound(b, k) {
      if k in db.ledger {
        EntryKeeps(db, b, k);
      } else {
        NewEntry(db, researcher, currency, id, outcome, k);
      }
    }
  }

  lemma PayMinted(db: Db, researcher: Id, currency: string, outcome: Outcome)
    requires Connected(db, researcher)
    ensures PayPool(db, researcher, currency, outcome).minted == db.minted
  {
  }

  lemma PaySplitRows(db: Db, researcher: Id, currency: string, outcome: Outcome)
    requires Sound(db) && Connected(db, researcher)
    ensures var b := PayPool(db, researcher, currency, outcome);
      forall s :: s in b.splits ==> SplitSound(b, s)
  {
    hide Sum, PoolKey, RowSound, EntrySound;
    var b := PayPool(db, researcher, currency, outcome);
    PayRows(db, researcher, currency, outcome);
    forall s | s in b.splits ensures SplitSound(b, s) {
      KeysApart(Pool(db, researcher, currency), s, s);
      assert SplitSound(db, s);
    }
  }

  lemma PayRowSound(db: Db, researcher: Id, currency: string, outcome: Outcome, r: Id)
    requires Connected(db, researcher) && r in db.rewards && RowSound(db, r)
    requires var key := PoolKey(Pool(db, researcher, currency)); key in db.ledger ==> EntrySound(db, key)
    ensures RowSound(PayPool(db, researcher, currency, outcome), r)
  {
    hide Sum, PoolKey, SplitKey;
    var b := PayPool(db, researcher, currency, outcome);
    var pool := Pool(db, researcher, currency);
    assert SplitsOf(b, r) == SplitsOf(db, r);
    if r in pool && PoolKey(pool) in db.ledger {
      KeyHoldsPool(db, pool);
    }
  }

  lemma PaySound(db: Db, researcher: Id, currency: string, id: Id, outcome: Outcome)
    requires Sound(db) && Payable(db, researcher, currency, id)
    ensures Sound(PayPool(db, researcher, currency, outcome))
  {
    hide Sum, PoolKey, SplitSound, RowSound, EntrySound;
    var b := PayPool(db, researcher, currency, outcome);
    PayEntries(db, researcher, currency, id, outcome);
    PaySplitRows(db, researcher, currency, outcome);
    forall r | r in b.rewards ensures RowSound(b, r) {
      PayRowSound(db, researcher, currency, outcome, r);
    }
  }

  /** A pooled reward is not paid yet, so no transfer is named by it. */
  lemma PoolUnnamed(db: Db, researcher: Id, currency: string)
    requires Sound(db)
    ensures forall r, k :: r in Pool(db, researcher, currency) ==> !Names(db, r, k)
  {
    hide Sum, PoolKey, SplitSound, EntrySound, RowFits;
    assert forall r :: r in db.rewards ==> RowSound(db, r);
  }

  /** When all requests were answered, no transfer of the ledger covers a reward of the pool, and its key is new. */
  lemma KeyIsNew(db: Db, researcher: Id, currency: string, id: Id)
    requires Sound(db) && Pooled(db) && Payable(db, researcher, currency, id)
    ensures forall k, r :: r in Pool(db, researcher, currency) ==> !InPool(db, k, r)
    ensures PoolKey(Pool(db, researcher, currency)) !in db.ledger
  {
    hide Sum, PoolKey, RowSound, SplitSound, Names;
    var pool := Pool(db, researcher, currency);
    var key := PoolKey(pool);
    PoolUnnamed(db, researcher, currency);
    assert !InPool(db, key, id);
    if key in db.ledger { KeyHoldsPool(db, pool); }
  }

  /** What one payment does to the pool transfers and to the rows that name them. */
  lemma PayNames(db: Db, researcher: Id, currency: string, outcome: Outcome)
    requires Sound(db) && Connected(db, researcher) && Pool(db, researcher, currency) != {}
    ensures var b, pool := PayPool(db, researcher, currency, outcome), Pool(db, researcher, currency);
      var key := PoolKey(pool);
      var settles := ChangeOf(db, researcher, currency, outcome).Settle?;
      var charges := !ChangeOf(db, researcher, currency, outcome).Hold? && !outcome.Refused?;
      (forall k, r :: InPool(b, k, r) <==> InPool(db, k, r) || (charges && k == key && r in pool)) &&
      (forall k, r :: Names(b, r, k) <==> if settles && r in pool then k == key else Names(db, r, k))
  {
    hide Sum, PoolKey, RowSound, SplitSound, EntrySound, AddByProgram, PoolTotal;
    var pool := Pool(db, researcher, currency);
    if PoolKey(pool) in db.ledger {
      assert EntrySound(db, PoolKey(pool));
      KeyHoldsPool(db, pool);
    }
  }

  lemma PaySplitsKept(db: Db, researcher: Id, currency: string, outcome: Outcome)
    requires Connected(db, researcher) && SplitsKept(db)
    ensures SplitsKept(PayPool(db, researcher, currency, outcome))
  {
    hide Sum, PoolKey, AddByProgram, PoolTotal, ChangeOf;
    var b := PayPool(db, researcher, currency, outcome);
    assert forall r :: SplitsOf(b, r) == SplitsOf(db, r);
    assert forall k, r :: InSplit(b, k, r) ==> InSplit(db, k, r);
  }

  lemma PayPreserves(db: Db, researcher: Id, currency: string, id: Id, outcome: Outcome)
    requires Sound(db) && Payable(db, researcher, currency, id)
    ensures Preserves(db, PayPool(db, researcher, currency, outcome), !outcome.Unanswered?, true)
  {
    hide Sum, PoolKey, Sound, InPool, Names, PayPool, SplitsKept, Connected, Pool;
    var b, pool := PayPool(db, researcher, currency, outcome), Pool(db, researcher, currency);
    var key := PoolKey(pool);
    PayNames(db, researcher, currency, outcome);
    PoolUnnamed(db, researcher, currency);
    if SplitsKept(db) { PaySplitsKept(db, researcher, currency, outcome); }
    if Whole(db) {
      forall k, r, s | InPool(b, k, r) && InPool(b, k, s) ensures Names(b, r, k) <==> Names(b, s, k) {
        if k == key && InPool(db, k, r) { KeyMembers(db, pool, k, r); }
        if k == key && InPool(db, k, s) { KeyMembers(db, pool, k, s); }
      }
    }
  }

  /** The members of the transfer under a pool's key are the pool's. */
  lemma KeyMembers(db: Db, pool: set<Id>, k: string, r: Id)
    requires Sound(db) && pool != {} && k == PoolKey(pool) && InPool(db, k, r)
    ensures r in pool
  {
    hide Sum, PoolKey, RowSound, SplitSound, EntrySound;
    assert EntrySound(db, k);
    KeyHoldsPool(db, pool);
  }

  /** A payment that goes through adds its pool to the settled rewards; any other adds none. */
  lemma PaySettles(db: Db, researcher: Id, currency: string, outcome: Outcome)
    requires Connected(db, researcher)
    ensures var b, pool := PayPool(db, researcher, currency, outcome), Pool(db, researcher, currency);
      RowsSameFacts(db, b) && pool <= db.rewards.Keys &&
      PoolPaid(b) == if ChangeOf(db, researcher, currency, outcome).Settle? then PoolPaid(db) + pool else PoolPaid(db)
  {
    hide Sum, PoolKey, PoolTotal, AddByProgram, HasSplits;
  }

  lemma PoolUnpaid(db: Db, researcher: Id, currency: string)
    requires Sound(db)
    ensures PoolPaid(db) !! Pool(db, researcher, currency)
  {
    hide Sum, PoolKey, SplitSound, EntrySound, RowFits;
    assert forall r :: r in db.rewards ==> RowSound(db, r);
  }

  /** A settling payment lifts each total above what is settled by the amounts of rewards already settled before. */
  lemma TotalsDrift(db: Db, researcher: Id, currency: string, outcome: Outcome, p: Id)
    requires Connected(db, researcher) && p in db.totals && ChangeOf(db, researcher, currency, outcome).Settle?
    ensures var b, pool := PayPool(db, researcher, currency, outcome), Pool(db, researcher, currency);
      p in b.totals && b.totals[p] - SettledIn(b, p) ==
      db.totals[p] - SettledIn(db, p) +
      Sum(Part(pool * PoolPaid(db), Programs(db.rewards), p), Amounts(db.rewards))
  {
    hide Sum, PoolKey, SettledIn, PoolPaid, Pool, ChangeOf, CreateTransfer, PoolTransfer;
    var b, pool := PayPool(db, researcher, currency, outcome), Pool(db, researcher, currency);
    PaySettles(db, researcher, currency, outcome);
    assert PoolPaid(db) + pool == PoolPaid(db) + (pool - PoolPaid(db));
    SettledMore(db, b, pool - PoolPaid(db), p);
    var again := Part(pool * PoolPaid(db), Programs(db.rewards), p);
    var first := Part(pool - PoolPaid(db), Programs(db.rewards), p);
    SumUnion(again, first, Amounts(db.rewards));
    assert Part(pool, Programs(db.rewards), p) == again + first;
  }

  lemma PayTotals(db: Db, researcher: Id, currency: string, outcome: Outcome)
    requires Connected(db, researcher) && PoolPaid(db) !! Pool(db, researcher, currency)
    ensures TotalsEvolve(db, PayPool(db, researcher, currency, outcome))
  {
    hide Sum, PoolKey, SettledIn, PoolPaid, Pool, ChangeOf, CreateTransfer, PoolTransfer;
    var b, pool := PayPool(db, researcher, currency, outcome), Pool(db, researcher, currency);
    PaySettles(db, researcher, currency, outcome);
    if ChangeOf(db, researcher, currency, outcome).Settle? {
      var again := pool * PoolPaid(db);
      forall p | p in db.totals ensures b.totals[p] - SettledIn(b, p) == db.totals[p] - SettledIn(db, p) {
        TotalsDrift(db, researcher, currency, outcome, p);
        NonePart(again, Programs(db.rewards), p, Amounts(db.rewards));
      }
    } else {
      SameSettled(db, b);
    }
  }

  lemma NonePart(none: set<Id>, program: Id -> Id, p: Id, f: Id -> int)
    requires none == {}
    ensures Sum(Part(none, program, p), f) == 0
  {
    assert Part(none, program, p) == none;
  }

  lemma SameSettled(a: Db, b: Db)
    requires RowsSameFacts(a, b) && PoolPaid(a) == PoolPaid(b) && a.totals == b.totals
    ensures TotalsEvolve(a, b)
  {
    hide Sum;
    TotalsSame(a, b);
  }

  lemma SettledMore(a: Db, b: Db, pool: set<Id>, p: Id)
    requires RowsSameFacts(a, b) && PoolPaid(b) == PoolPaid(a) + pool && PoolPaid(a) !! pool && pool <= a.rewards.Keys
    ensures SettledIn(b, p) == SettledIn(a, p) + Sum(Part(pool, Programs(a.rewards), p), Amounts(a.rewards))
  {
    hide Sum;
    var before := Part(PoolPaid(a), Programs(a.rewards), p);
    var now := Part(pool, Programs(a.rewards), p);
    assert Part(PoolPaid(b), Programs(b.rewards), p) == before + now;
    SumUnion(before, now, Amounts(b.rewards));
    SumSame(before, Amounts(a.rewards), Amounts(b.rewards));
    SumSame(now, Amounts(a.rewards), Amounts(b.rewards));
  }

  ghost predicate RowsSameFacts(a: Db, b: Db)
  {
    a.rewards.Keys == b.rewards.Keys && forall r :: r in a.rewards ==> SameFacts(a.rewards[r], b.rewards[r])
  }

  /** A failed transfer costs at least one attempt: the reward that asked is in its own pool, below the cap. */
  lemma FailureCostsRoom(db: Db, researcher: Id, currency: string, id: Id, outcome: Outcome)
    requires Payable(db, researcher, currency, id) && ChangeOf(db, researcher, currency, outcome).Bounce?
    ensures RoomLeft(PayPool(db, researcher, currency, outcome)) < RoomLeft(db)
  {
    hide Sum, PoolKey;
    var b := PayPool(db, researcher, currency, outcome);
    var all := db.rewards.Keys;
    SumPick(all, id, Room(db.rewards));
    SumPick(all, id, Room(b.rewards));
    assert b.rewards.Keys == all;
    SumBelow(all - {id}, Room(b.rewards), Room(db.rewards));
  }

  lemma {:induction false} SumBelow<T>(s: set<T>, f: T -> int, g: T -> int)
    requires forall x :: x in s ==> f(x) <= g(x)
    ensures Sum(s, f) <= Sum(s, g)
    decreases s
  {
    if s == {} {
    } else {
      var x :| x in s;
      SumPick(s, x, f);
      SumPick(s, x, g);
      SumBelow(s - {x}, f, g);
    }
  }

  ghost function FailureOf(db: Db, user: Id, id: Id, outcome: Outcome): nat
  {
    if MarkPaidResult(db, user, id, outcome).TransferFailed? then 1 else 0
  }

  lemma PayRoom(db: Db, researcher: Id, currency: string, id: Id, outcome: Outcome)
    requires Payable(db, researcher, currency, id)
    ensures RoomEvolves(db, PayPool(db, researcher, currency, outcome),
                        if ChangeOf(db, researcher, currency, outcome).Bounce? then 1 else 0)
  {
    hide Sum, PoolKey, RoomLeft;
    var b := PayPool(db, researcher, currency, outcome);
    assert b.rewards.Keys - db.rewards.Keys == {};
    if ChangeOf(db, researcher, currency, outcome).Bounce? {
      FailureCostsRoom(db, researcher, currency, id, outcome);
    } else {
      RoomSame(db, b);
    }
  }

  /** One payment request: the invariants hold on, and the state evolves with at most one failure. */
  lemma PayStep(db: Db, user: Id, id: Id, outcome: Outcome)
    requires Sound(db)
    ensures Sound(MarkPaid(db, user, id, outcome))
    ensures Evolves(db, MarkPaid(db, user, id, outcome), FailureOf(db, user, id, outcome), {})
    ensures Preserves(db, MarkPaid(db, user, id, outcome), !outcome.Unanswered?, true)
  {
    hide Sum, PoolKey, Sound, Preserves, PayPool, RowsEvolve, LedgerGrows, SplitsEvolve, TotalsEvolve, RoomEvolves;
    if PayRefusal(db, user, id).Some? {
      EvolvesRefl(db);
      PreservesRefl(db, !outcome.Unanswered?);
    } else {
      TriggerPayable(db, user, id);
      var r, c := db.rewards[id].researcher, db.rewards[id].currency;
      PaySound(db, r, c, id, outcome);
      PayRows(db, r, c, outcome);
      PoolUnpaid(db, r, c);
      PayTotals(db, r, c, outcome);
      PayRoom(db, r, c, id, outcome);
      PayPreserves(db, r, c, id, outcome);
    }
  }

  // ----- who is paid, and where the money goes

  /** r and id are approved rewards of one researcher and currency, r without splits. */
  ghost predicate PooledWith(db: Db, id: Id, r: Id)
    requires id in db.rewards && r in db.rewards
  {
    db.rewards[r].status == Approved && (forall s :: s in db.splits ==> db.splits[s].reward != r) &&
    db.rewards[r].researcher == db.rewards[id].researcher && db.rewards[r].currency == db.rewards[id].currency
  }

  ghost function Companions(db: Db, id: Id): set<Id>
    requires id in db.rewards
  {
    set r | r in db.rewards && PooledWith(db, id, r)
  }

  /** What all rewards pooled with id are worth together. */
  ghost function Worth(db: Db, id: Id): int
    requires id in db.rewards
  {
    Sum(Companions(db, id), (r: Id) => if r in db.rewards then db.rewards[r].amount else 0)
  }

  predicate Owns(db: Db, user: Id, id: Id)
    requires id in db.rewards
  {
    db.rewards[id].org in db.owners && db.owners[db.rewards[id].org] == user
  }

  /** The researcher has a payout account that is switched on. */
  predicate CanReceive(db: Db, researcher: Id)
  {
    researcher in db.profiles && db.profiles[researcher].payoutsEnabled &&
    db.profiles[researcher].account.Some? && db.profiles[researcher].account.value != ""
  }

  /** All that is asked of a payment before the amount is looked at. */
  ghost predicate MayPay(db: Db, user: Id, id: Id)
  {
    id in db.rewards && Owns(db, user, id) && PooledWith(db, id, id) && db.rewards[id].retries < 5 &&
    CanReceive(db, db.rewards[id].researcher)
  }

  lemma PoolIs(db: Db, id: Id)
    requires id in db.rewards
    ensures var r, c := db.rewards[id].researcher, db.rewards[id].currency;
      Pool(db, r, c) == Companions(db, id) && PoolTotal(db, r, c) == Worth(db, id)
  {
    hide Sum;
    var r, c := db.rewards[id].researcher, db.rewards[id].currency;
    forall x | x in db.rewards ensures HasSplits(db, x) <==> exists s :: s in db.splits && db.splits[s].reward == x {
      if s :| s in db.splits && db.splits[s].reward == x { assert s in SplitsOf(db, x); }
    }
    assert Pool(db, r, c) == Companions(db, id);
    SumSame(Pool(db, r, c), Amounts(db.rewards), (x: Id) => if x in db.rewards then db.rewards[x].amount else 0);
  }

  /** The reasons for a refusal, in the order in which they are looked for; none exactly if the payment may go ahead. */
  lemma RefusedBecause(db: Db, user: Id, id: Id)
    ensures PayRefusal(db, user, id).None? <==> MayPay(db, user, id)
    ensures var refusal := PayRefusal(db, user, id);
      (refusal == Some(NotFound) <==> id !in db.rewards) &&
      (id in db.rewards ==>
        (refusal == Some(NotOwner) <==> !Owns(db, user, id)) &&
        (refusal == Some(NotApproved) <==> Owns(db, user, id) && db.rewards[id].status != Approved) &&
        (refusal == Some(RetriesExhausted) <==>
         Owns(db, user, id) && db.rewards[id].status == Approved && db.rewards[id].retries >= 5) &&
        (refusal == Some(NotConnected) <==>
         Owns(db, user, id) && PooledWith(db, id, id) && db.rewards[id].retries < 5 &&
         !CanReceive(db, db.rewards[id].researcher)))
  {
    if id in db.rewards {
      assert HasSplits(db, id) <==> exists s :: s in db.splits && db.splits[s].reward == id by {
        if s :| s in db.splits && db.splits[s].reward == id { assert s in SplitsOf(db, id); }
      }
    }
  }

  /** How a payment ends: by its guards, then the threshold, then the provider. */
  lemma ResultIs(db: Db, user: Id, id: Id, outcome: Outcome)
    ensures var result := MarkPaidResult(db, user, id, outcome);
      (result.Rejected? <==> !MayPay(db, user, id)) &&
      (MayPay(db, user, id) ==>
        var enough := Worth(db, id) >= db.profiles[db.rewards[id].researcher].threshold;
        (result == BelowThreshold <==> !enough) &&
        (result == PaidTogether(|Companions(db, id)|) <==> enough && outcome == Sent) &&
        (result == TransferFailed <==> enough && outcome != Sent))
  {
    hide Sum, PoolKey, Pool, PoolTotal, PayRefusal, Worth, Companions, Owns, PooledWith;
    RefusedBecause(db, user, id);
    if MayPay(db, user, id) { PoolIs(db, id); }
  }

  /**
   * What a payment does to every row, column by column: to the pooled ones by how it ends, and to no other.
   */
  lemma RowEffect(db: Db, user: Id, id: Id, outcome: Outcome, r: Id)
    requires r in db.rewards
    ensures var b, result, row := MarkPaid(db, user, id, outcome), MarkPaidResult(db, user, id, outcome), db.rewards[r];
      r in b.rewards &&
      if result.Rejected? || !PooledWith(db, id, r) then b.rewards[r] == row
      else match result
        case BelowThreshold => b.rewards[r] == row.(held := true)
        case PaidTogether(_) =>
          b.rewards[r] == row.(status := Paid, payout := Succeeded, held := false,
                               transfer := Some(PoolKey(Companions(db, id))))
        case TransferFailed => b.rewards[r] == row.(payout := Failed, retries := row.retries + 1)
  {
    hide Sum, PoolKey, PoolTotal, AddByProgram, CreateTransfer, PoolTransfer, Worth;
    ResultIs(db, user, id, outcome);
    if id in db.rewards { PoolIs(db, id); }
  }

  ghost function OfProgram(db: Db, pool: set<Id>, p: Id): set<Id>
  {
    set r | r in pool && r in db.rewards && db.rewards[r].program == p
  }

  /** What it does to the ledger and to each program's total. */
  lemma MoneyEffect(db: Db, user: Id, id: Id, outcome: Outcome)
    ensures var b, result := MarkPaid(db, user, id, outcome), MarkPaidResult(db, user, id, outcome);
      b == db.(rewards := b.rewards, totals := b.totals, ledger := b.ledger) &&
      b.rewards.Keys == db.rewards.Keys && b.totals.Keys == db.totals.Keys &&
      (if result.Rejected? || result.BelowThreshold? || outcome == Refused then b.ledger == db.ledger
       else
         var pool := Companions(db, id);
         var account := db.profiles[db.rewards[id].researcher].account.value;
         b.ledger == if PoolKey(pool) in db.ledger then db.ledger
                     else db.ledger[PoolKey(pool) :=
                       Transfer(account, 100 * Worth(db, id), db.rewards[id].currency, ForPool(pool))]) &&
      forall p :: p in db.totals ==>
        b.totals[p] == if !result.PaidTogether? then db.totals[p]
                       else db.totals[p] + Sum(OfProgram(db, Companions(db, id), p), Amounts(db.rewards))
  {
    hide Sum, PoolKey, PoolTotal, Pool, RowAfter, Worth, Companions, PooledWith, PayRefusal;
    ResultIs(db, user, id, outcome);
    RefusedBecause(db, user, id);
    if MayPay(db, user, id) {
      PoolIs(db, id);
      CompanionsListed(db, id);
      var pool := Companions(db, id);
      forall p | p in db.totals ensures Part(pool, Programs(db.rewards), p) == OfProgram(db, pool, p) {
        ProgramPart(db, pool, p);
      }
    }
  }

  lemma ProgramPart(db: Db, pool: set<Id>, p: Id)
    requires pool <= db.rewards.Keys
    ensures Part(pool, Programs(db.rewards), p) == OfProgram(db, pool, p)
  {
  }

  lemma CompanionsListed(db: Db, id: Id)
    requires id in db.rewards
    ensures Companions(db, id) <= db.rewards.Keys
  {
  }

  /** Reward r becomes paid exactly if the owner asks for a reward r is pooled with, and all the conditions hold. */
  lemma PaidExactly(db: Db, user: Id, id: Id, outcome: Outcome, r: Id)
    requires id in db.rewards && r in db.rewards && db.rewards[r].status != Paid
    ensures MarkPaid(db, user, id, outcome).rewards[r].status == Paid <==>
      (MayPay(db, user, id) && PooledWith(db, id, r) && outcome == Sent &&
       Worth(db, id) >= db.profiles[db.rewards[id].researcher].threshold)
  {
    hide Sum, PoolKey, MarkPaid, MarkPaidResult, PooledWith, Worth, Owns;
    RowEffect(db, user, id, outcome, r);
    ResultIs(db, user, id, outcome);
  }

  /** A new transfer goes to the researcher's own account, for the whole pool, and meets the researcher's threshold. */
  lemma MoneyGoesTo(db: Db, user: Id, id: Id, outcome: Outcome, k: string)
    requires id in db.rewards && k in MarkPaid(db, user, id, outcome).ledger && k !in db.ledger
    ensures var t, asked := MarkPaid(db, user, id, outcome).ledger[k], db.rewards[id];
      CanReceive(db, asked.researcher) && Some(t.account) == db.profiles[asked.researcher].account &&
      t.currency == asked.currency && t.purpose == ForPool(Companions(db, id)) &&
      t.cents == 100 * Worth(db, id) && t.cents >= 100 * db.profiles[asked.researcher].threshold
  {
    hide Sum, PoolKey, MarkPaid, MarkPaidResult, PooledWith, Worth, Owns, Companions;
    MoneyEffect(db, user, id, outcome);
    ResultIs(db, user, id, outcome);
  }

  /** Below the threshold nothing but the held mark changes. */
  lemma BelowThresholdHolds(db: Db, user: Id, id: Id, outcome: Outcome)
    requires MarkPaidResult(db, user, id, outcome).BelowThreshold?
    ensures var b := MarkPaid(db, user, id, outcome);
      b == db.(rewards := b.rewards) && b.rewards.Keys == db.rewards.Keys &&
      forall r :: r in db.rewards ==>
        b.rewards[r] == if PooledWith(db, id, r) then db.rewards[r].(held := true) else db.rewards[r]
  {
    hide Sum, PoolKey, MarkPaid, MarkPaidResult, PooledWith, Worth, Companions;
    ResultIs(db, user, id, outcome);
    MoneyEffect(db, user, id, outcome);
    forall r | r in db.rewards {
      RowEffect(db, user, id, outcome, r);
    }
  }

  /**
   * Held rewards stay held: until the pool grows or the threshold changes, asking again for any reward of the group,
   * whoever asks and whatever the provider would answer, changes nothing. (Under row-level security, not modelled,
   * another owner would ask for a pool of that owner's organizations only.)
   */
  lemma HeldStaysHeld(db: Db, user: Id, id: Id, outcome: Outcome, other: Id, again: Id, later: Outcome)
    requires MarkPaidResult(db, user, id, outcome).BelowThreshold?
    requires InGroup(db, again, db.rewards[id].researcher, db.rewards[id].currency)
    ensures var b := MarkPaid(db, user, id, outcome);
      MarkPaid(b, other, again, later) == b
  {
    hide Sum, PoolKey, AddByProgram, CreateTransfer, PoolTransfer, MarkPaid, Pool;
    var b := MarkPaid(db, user, id, outcome);
    BelowThresholdHolds(db, user, id, outcome);
    var r, c := db.rewards[id].researcher, db.rewards[id].currency;
    PoolHeld(db, b, id);
    SumSame(Pool(db, r, c), Amounts(db.rewards), Amounts(b.rewards));
    PayHeld(b, other, again, later);
  }

  lemma PoolHeld(db: Db, b: Db, id: Id)
    requires id in db.rewards && b == db.(rewards := b.rewards) && b.rewards.Keys == db.rewards.Keys
    requires forall r :: r in db.rewards ==>
      b.rewards[r] == if PooledWith(db, id, r) then db.rewards[r].(held := true) else db.rewards[r]
    ensures var r, c := db.rewards[id].researcher, db.rewards[id].currency;
      Pool(b, r, c) == Pool(db, r, c) && forall x :: x in Pool(b, r, c) ==> b.rewards[x].held
  {
    PoolIs(db, id);
    PoolIs(b, id);
    assert Companions(b, id) == Companions(db, id);
  }

  /** Holding a pool that is held already. */
  lemma PayHeld(db: Db, user: Id, id: Id, outcome: Outcome)
    requires id in db.rewards && Connected(db, db.rewards[id].researcher)
    requires var r, c := db.rewards[id].researcher, db.rewards[id].currency;
      PoolTotal(db, r, c) < db.profiles[r].threshold && forall x :: x in Pool(db, r, c) ==> db.rewards[x].held
    ensures MarkPaid(db, user, id, outcome) == db
  {
    hide Sum, PoolKey, AddByProgram, CreateTransfer, PoolTransfer, PayRefusal, PoolTotal, Connected;
    var r, c := db.rewards[id].researcher, db.rewards[id].currency;
    var pool := Pool(db, r, c);
    forall x | x in db.rewards ensures Rewrite(db.rewards, pool, Hold)[x] == db.rewards[x] {
      if x in pool { assert db.rewards[x].held; }
    }
    assert Rewrite(db.rewards, pool, Hold) == db.rewards;
  }
}
