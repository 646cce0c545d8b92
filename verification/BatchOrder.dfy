/**
 * A batch of payments against a provider whose answer depends only on the idempotency key comes to the same as paying
 * every triggered group at once, so the order and repetition of the reward ids do not matter.
 */
module BatchOrder {
  import opened Collections
  import opened PoolKeys
  import opened RewardModel
  import opened RewardInvariants
  import opened RewardRuns

  type Policy = string -> Outcome

  function ByKey(policy: Policy): Gateway
  {
    (n: nat, k: string) => policy(k)
  }

  // ----- the simultaneous payment

  /** Some id of s may be paid at the start and belongs to the group. */
  ghost predicate GroupFired(db: Db, user: Id, s: set<Id>, researcher: Id, currency: string)
  {
    exists id :: id in s && PayRefusal(db, user, id).None? && InGroup(db, id, researcher, currency)
  }

  ghost predicate Fired(db: Db, user: Id, s: set<Id>, r: Id)
  {
    Poolable(db, r) && GroupFired(db, user, s, db.rewards[r].researcher, db.rewards[r].currency)
  }

  ghost function GroupChange(db: Db, policy: Policy, r: Id): Change
    requires r in db.rewards
  {
    if db.rewards[r].researcher in db.profiles
    then ChangeOf(db, db.rewards[r].researcher, db.rewards[r].currency, policy(KeyNow(db, r)))
    else Hold
  }

  function Erase(row: Reward): Reward
  {
    row.(retries := 0)
  }

  ghost predicate RowClosed(db: Db, user: Id, s: set<Id>, policy: Policy, r: Id, row: Reward)
    requires r in db.rewards
  {
    if Fired(db, user, s, r) then
      Erase(row) == Erase(RowAfter(db.rewards[r], GroupChange(db, policy, r))) &&
      (!GroupChange(db, policy, r).Bounce? ==> row.retries == db.rewards[r].retries)
    else row == db.rewards[r]
  }

  ghost predicate Charged(db: Db, user: Id, s: set<Id>, policy: Policy, r: Id)
  {
    Fired(db, user, s, r) && Connected(db, db.rewards[r].researcher) && !GroupChange(db, policy, r).Hold? &&
    !policy(KeyNow(db, r)).Refused?
  }

  ghost predicate LedgerClosed(db: Db, user: Id, s: set<Id>, policy: Policy, ledger: Ledger)
  {
    (forall k :: k in db.ledger ==> k in ledger && ledger[k] == db.ledger[k]) &&
    (forall k :: k in ledger && k !in db.ledger ==>
       exists r :: Charged(db, user, s, policy, r) && k == KeyNow(db, r)) &&
    (forall r :: Charged(db, user, s, policy, r) ==> HasTransfer(db, ledger, r))
  }

  ghost predicate HasTransfer(db: Db, ledger: Ledger, r: Id)
    requires r in db.rewards && Connected(db, db.rewards[r].researcher)
  {
    KeyNow(db, r) in ledger &&
    (KeyNow(db, r) !in db.ledger ==>
       ledger[KeyNow(db, r)] == PoolTransfer(db, db.rewards[r].researcher, db.rewards[r].currency))
  }

  ghost predicate SameFrame(a: Db, b: Db)
  {
    b.(rewards := a.rewards, totals := a.totals, ledger := a.ledger) == a && b.rewards.Keys == a.rewards.Keys
  }

  /** end is what results when every group triggered by s is paid at once from start. */
  ghost predicate ClosedForm(start: Db, user: Id, s: set<Id>, policy: Policy, end: Db)
  {
    SameFrame(start, end) &&
    (forall r :: r in start.rewards ==> RowClosed(start, user, s, policy, r, end.rewards[r])) &&
    LedgerClosed(start, user, s, policy, end.ledger)
  }

  // ----- one payment from a closed form

  /** Paying id changes nothing in which groups count as triggered. */
  ghost predicate Spent(db: Db, user: Id, s: set<Id>, id: Id)
  {
    PayRefusal(db, user, id).None? ==> GroupFired(db, user, s, db.rewards[id].researcher, db.rewards[id].currency)
  }

  lemma SpentSame(db: Db, user: Id, s: set<Id>, id: Id)
    requires Spent(db, user, s, id)
    ensures forall r, c :: GroupFired(db, user, s + {id}, r, c) <==> GroupFired(db, user, s, r, c)
  {
    hide PayRefusal;
    forall r, c | GroupFired(db, user, s + {id}, r, c) ensures GroupFired(db, user, s, r, c) {
      var x :| x in s + {id} && PayRefusal(db, user, x).None? && InGroup(db, x, r, c);
    }
    forall r, c | GroupFired(db, user, s, r, c) ensures GroupFired(db, user, s + {id}, r, c) {
      var x :| x in s && PayRefusal(db, user, x).None? && InGroup(db, x, r, c);
      assert x in s + {id};
    }
  }

  lemma ClosedSpent(start: Db, user: Id, s: set<Id>, policy: Policy, end: Db, id: Id)
    requires ClosedForm(start, user, s, policy, end) && Spent(start, user, s, id)
    ensures ClosedForm(start, user, s + {id}, policy, end)
  {
    hide GroupFired, Spent, GroupChange, KeyNow, HasTransfer, Connected, PoolKey;
    SpentSame(start, user, s, id);
    assert forall r :: Fired(start, user, s + {id}, r) <==> Fired(start, user, s, r);
    forall r ensures Charged(start, user, s + {id}, policy, r) <==> Charged(start, user, s, policy, r) {
      assert Fired(start, user, s + {id}, r) <==> Fired(start, user, s, r);
    }
  }

  /** A refused payment of the batch is refused from the start, or its group is already triggered. */
  lemma RefusedIsSpent(start: Db, user: Id, s: set<Id>, policy: Policy, end: Db, id: Id)
    requires ClosedForm(start, user, s, policy, end) && PayRefusal(end, user, id).Some?
    ensures Spent(start, user, s, id)
  {
    hide GroupFired, GroupChange, LedgerClosed, KeyNow;
    assert SplitsOf(end, id) == SplitsOf(start, id);
    if id in start.rewards && !Fired(start, user, s, id) {
      assert RowClosed(start, user, s, policy, id, end.rewards[id]);
    }
  }

  /** A payable id was poolable at the start, in a group that is not settled. */
  lemma PayableAtStart(start: Db, user: Id, s: set<Id>, policy: Policy, end: Db, id: Id)
    requires ClosedForm(start, user, s, policy, end) && PayRefusal(end, user, id).None?
    ensures id in start.rewards && Poolable(start, id) && Connected(start, start.rewards[id].researcher)
    ensures SameFacts(start.rewards[id], end.rewards[id])
    ensures Fired(start, user, s, id) ==> !GroupChange(start, policy, id).Settle?
    ensures !Fired(start, user, s, id) ==> PayRefusal(start, user, id).None?
  {
    hide GroupFired, LedgerClosed, GroupChange, Pool;
    assert SplitsOf(end, id) == SplitsOf(start, id);
    assert RowClosed(start, user, s, policy, id, end.rewards[id]);
  }

  /** What a payable id tells about its group: not settled yet, and the very pool of the start. */
  lemma PoolAsAtStart(start: Db, user: Id, s: set<Id>, policy: Policy, end: Db, id: Id)
    requires ClosedForm(start, user, s, policy, end) && PayRefusal(end, user, id).None?
    ensures id in start.rewards && Poolable(start, id) && Connected(start, start.rewards[id].researcher)
    ensures SameFacts(start.rewards[id], end.rewards[id])
    ensures Fired(start, user, s, id) ==> !GroupChange(start, policy, id).Settle?
    ensures !Fired(start, user, s, id) ==> PayRefusal(start, user, id).None?
    ensures var r, c := start.rewards[id].researcher, start.rewards[id].currency;
      Pool(end, r, c) == Pool(start, r, c)
  {
    hide LedgerClosed, GroupFired, PayRefusal, GroupChange, RowClosed, Connected;
    PayableAtStart(start, user, s, policy, end, id);
    var r, c := start.rewards[id].researcher, start.rewards[id].currency;
    forall x | x in start.rewards ensures x in Pool(end, r, c) <==> x in Pool(start, r, c) {
      StaysInPool(start, user, s, policy, end, id, x);
    }
  }

  lemma StaysInPool(start: Db, user: Id, s: set<Id>, policy: Policy, end: Db, id: Id, x: Id)
    requires ClosedForm(start, user, s, policy, end) && id in start.rewards && x in start.rewards
    requires Poolable(start, id) && (Fired(start, user, s, id) ==> !GroupChange(start, policy, id).Settle?)
    ensures var r, c := start.rewards[id].researcher, start.rewards[id].currency;
      x in Pool(end, r, c) <==> x in Pool(start, r, c)
  {
    hide LedgerClosed, GroupFired, GroupChange, KeyNow;
    assert SplitsOf(end, x) == SplitsOf(start, x);
    assert RowClosed(start, user, s, policy, x, end.rewards[x]);
    if InGroup(start, x, start.rewards[id].researcher, start.rewards[id].currency) {
      SameGroupChange(start, policy, x, id);
    }
  }

  lemma SameGroupChange(db: Db, policy: Policy, x: Id, y: Id)
    requires x in db.rewards && y in db.rewards
    requires InGroup(db, x, db.rewards[y].researcher, db.rewards[y].currency)
    ensures GroupChange(db, policy, x) == GroupChange(db, policy, y) && KeyNow(db, x) == KeyNow(db, y)
  {
  }

  /** Poolable rewards with the same key are in the same group. */
  lemma SameKeySameGroup(db: Db, x: Id, y: Id)
    requires Poolable(db, x) && Poolable(db, y) && KeyNow(db, x) == KeyNow(db, y)
    ensures InGroup(db, x, db.rewards[y].researcher, db.rewards[y].currency)
  {
    hide PoolKey;
    var p := Pool(db, db.rewards[x].researcher, db.rewards[x].currency);
    var q := Pool(db, db.rewards[y].researcher, db.rewards[y].currency);
    assert x in p && y in q;
    PoolKeyInjective(p, q);
  }

  /** With the pool as at the start, the payment is the one the start calls for. */
  lemma SamePayment(start: Db, user: Id, s: set<Id>, policy: Policy, end: Db, id: Id)
    requires ClosedForm(start, user, s, policy, end) && PayRefusal(end, user, id).None?
    ensures id in start.rewards && KeyNow(end, id) == KeyNow(start, id)
    ensures var r, c := start.rewards[id].researcher, start.rewards[id].currency;
      Connected(start, r) && Connected(end, r) &&
      ChangeOf(end, r, c, policy(KeyNow(start, id))) == GroupChange(start, policy, id) &&
      PoolTransfer(end, r, c) == PoolTransfer(start, r, c)
  {
    hide Sum, PoolKey, Fired, LedgerClosed;
    PoolAsAtStart(start, user, s, policy, end, id);
    var r, c := start.rewards[id].researcher, start.rewards[id].currency;
    AmountsStay(start, user, s, policy, end);
    SumSame(Pool(start, r, c), Amounts(start.rewards), Amounts(end.rewards));
  }

  lemma AmountsStay(start: Db, user: Id, s: set<Id>, policy: Policy, end: Db)
    requires ClosedForm(start, user, s, policy, end)
    ensures forall x :: x in start.rewards ==> end.rewards[x].amount == start.rewards[x].amount
  {
    hide Fired, LedgerClosed, GroupChange;
    assert forall x :: x in start.rewards ==> RowClosed(start, user, s, policy, x, end.rewards[x]);
  }

  /** The groups triggered with id are those triggered before and id's own. */
  lemma FiredMore(start: Db, user: Id, s: set<Id>, id: Id)
    requires id in start.rewards && Poolable(start, id)
    requires Fired(start, user, s, id) || PayRefusal(start, user, id).None?
    ensures var pool := Pool(start, start.rewards[id].researcher, start.rewards[id].currency);
      forall x :: Fired(start, user, s + {id}, x) <==> Fired(start, user, s, x) || x in pool
  {
    hide PayRefusal;
    var r, c := start.rewards[id].researcher, start.rewards[id].currency;
    assert GroupFired(start, user, s + {id}, r, c) by {
      var x :| x in s + {id} && PayRefusal(start, user, x).None? && InGroup(start, x, r, c);
    }
    forall x | Fired(start, user, s, x) ensures Fired(start, user, s + {id}, x) {
      var y :| y in s && PayRefusal(start, user, y).None? &&
               InGroup(start, y, start.rewards[x].researcher, start.rewards[x].currency);
      assert y in s + {id};
    }
    forall x | Fired(start, user, s + {id}, x) ensures Fired(start, user, s, x) || x in Pool(start, r, c) {
      var y :| y in s + {id} && PayRefusal(start, user, y).None? &&
               InGroup(start, y, start.rewards[x].researcher, start.rewards[x].currency);
    }
  }

  /** A payment changes the rows of its pool and no others. */
  lemma PaidRow(db: Db, user: Id, id: Id, outcome: Outcome, x: Id)
    requires PayRefusal(db, user, id).None? && x in db.rewards
    ensures id in db.rewards && db.rewards[id].researcher in db.profiles
    ensures var r, c := db.rewards[id].researcher, db.rewards[id].currency;
      x in MarkPaid(db, user, id, outcome).rewards &&
      MarkPaid(db, user, id, outcome).rewards[x] ==
      if x in Pool(db, r, c) then RowAfter(db.rewards[x], ChangeOf(db, r, c, outcome)) else db.rewards[x]
  {
    hide Sum, PoolKey, ChangeOf, PoolTransfer, CreateTransfer, AddByProgram, PoolTotal, Pool, RowAfter;
  }

  lemma PayRowClosed(start: Db, user: Id, s: set<Id>, policy: Policy, end: Db, id: Id, x: Id)
    requires ClosedForm(start, user, s, policy, end) && PayRefusal(end, user, id).None? && x in start.rewards
    ensures RowClosed(start, user, s + {id}, policy, x,
                      MarkPaid(end, user, id, policy(KeyNow(end, id))).rewards[x])
  {
    hide Sum, PoolKey, GroupFired, LedgerClosed, ChangeOf, PoolTransfer, KeyNow, PayRefusal, Poolable, MarkPaid;
    PaidRow(end, user, id, policy(KeyNow(end, id)), x);
    SamePayment(start, user, s, policy, end, id);
    PoolAsAtStart(start, user, s, policy, end, id);
    FiredMore(start, user, s, id);
    assert RowClosed(start, user, s, policy, x, end.rewards[x]);
    var r, c := start.rewards[id].researcher, start.rewards[id].currency;
    if x in Pool(start, r, c) {
      SameGroupChange(start, policy, x, id);
      PoolFires(start, user, s, id, x);
      var change := GroupChange(start, policy, id);
      if Fired(start, user, s, x) { Again(start.rewards[x], end.rewards[x], change); }
      assert MarkPaid(end, user, id, policy(KeyNow(end, id))).rewards[x] == RowAfter(end.rewards[x], change);
    } else {
      assert MarkPaid(end, user, id, policy(KeyNow(end, id))).rewards[x] == end.rewards[x];
    }
  }

  /** Holding or bouncing a row twice differs from once in the retry count only. */
  lemma Again(before: Reward, after: Reward, change: Change)
    requires !change.Settle? && Erase(after) == Erase(RowAfter(before, change))
    ensures Erase(RowAfter(after, change)) == Erase(RowAfter(before, change))
    ensures !change.Bounce? ==> RowAfter(after, change).retries == after.retries
  {
  }

  lemma PoolFires(start: Db, user: Id, s: set<Id>, id: Id, x: Id)
    requires id in start.rewards && x in Pool(start, start.rewards[id].researcher, start.rewards[id].currency)
    ensures Fired(start, user, s, x) ==> Fired(start, user, s, id) || !Poolable(start, id)
  {
    hide GroupFired;
  }

  lemma PayLedgerClosed(start: Db, user: Id, s: set<Id>, policy: Policy, end: Db, id: Id)
    requires ClosedForm(start, user, s, policy, end) && PayRefusal(end, user, id).None?
    ensures LedgerClosed(start, user, s + {id}, policy, MarkPaid(end, user, id, policy(KeyNow(end, id))).ledger)
  {
    hide Sum, PoolKey, GroupFired, RowClosed, ChangeOf, PoolTransfer, PayRefusal, Pool, Connected, KeyNow, MarkPaid;
    var key := KeyNow(end, id);
    var next := MarkPaid(end, user, id, policy(key)).ledger;
    SamePayment(start, user, s, policy, end, id);
    PoolAsAtStart(start, user, s, policy, end, id);
    FiredMore(start, user, s, id);
    PaidLedger(start, user, s, policy, end, id);
    InOwnPool(start, id);
    assert forall x :: Charged(start, user, s, policy, x) ==> Charged(start, user, s + {id}, policy, x);
    forall k | k in next && k !in start.ledger
      ensures exists x :: Charged(start, user, s + {id}, policy, x) && k == KeyNow(start, x)
    {
      if k in end.ledger {
        var y :| Charged(start, user, s, policy, y) && k == KeyNow(start, y);
      } else {
        assert Charged(start, user, s + {id}, policy, id);
      }
    }
    forall x | Charged(start, user, s + {id}, policy, x) ensures HasTransfer(start, next, x) {
      if Charged(start, user, s, policy, x) {
        assert HasTransfer(start, end.ledger, x);
      } else {
        NewlyCharged(start, user, s, policy, end, id, x);
      }
    }
  }

  lemma InOwnPool(db: Db, id: Id)
    requires Poolable(db, id)
    ensures id in Pool(db, db.rewards[id].researcher, db.rewards[id].currency)
  {
  }

  /** The ledger after the payment of id. */
  lemma PaidLedger(start: Db, user: Id, s: set<Id>, policy: Policy, end: Db, id: Id)
    requires ClosedForm(start, user, s, policy, end) && PayRefusal(end, user, id).None?
    ensures id in start.rewards && Connected(start, start.rewards[id].researcher)
    ensures var key := KeyNow(start, id);
      MarkPaid(end, user, id, policy(KeyNow(end, id))).ledger ==
      if GroupChange(start, policy, id).Hold? || policy(key).Refused? || key in end.ledger then end.ledger
      else end.ledger[key := PoolTransfer(start, start.rewards[id].researcher, start.rewards[id].currency)]
  {
    hide Sum, PoolKey, RowClosed, LedgerClosed, ChangeOf, PoolTransfer, Pool, GroupChange, KeyNow;
    SamePayment(start, user, s, policy, end, id);
    PoolAsAtStart(start, user, s, policy, end, id);
    PoolKeyNow(end, id);
  }

  lemma PoolKeyNow(db: Db, id: Id)
    requires id in db.rewards
    ensures PoolKey(Pool(db, db.rewards[id].researcher, db.rewards[id].currency)) == KeyNow(db, id)
  {
  }

  lemma NewlyCharged(start: Db, user: Id, s: set<Id>, policy: Policy, end: Db, id: Id, x: Id)
    requires ClosedForm(start, user, s, policy, end) && PayRefusal(end, user, id).None?
    requires Charged(start, user, s + {id}, policy, x) && !Charged(start, user, s, policy, x)
    ensures HasTransfer(start, MarkPaid(end, user, id, policy(KeyNow(end, id))).ledger, x)
  {
    hide Sum, PoolKey, GroupFired, RowClosed, ChangeOf, PoolTransfer, PayRefusal, KeyNow, MarkPaid;
    PoolAsAtStart(start, user, s, policy, end, id);
    FiredMore(start, user, s, id);
    PaidLedger(start, user, s, policy, end, id);
    SameGroupChange(start, policy, x, id);
    var key := KeyNow(start, id);
    if key in end.ledger && key !in start.ledger {
      var y :| Charged(start, user, s, policy, y) && key == KeyNow(start, y);
      assert HasTransfer(start, end.ledger, y);
      SameKeySameGroup(start, y, id);
    }
  }

  lemma PayClosed(start: Db, user: Id, s: set<Id>, policy: Policy, end: Db, id: Id)
    requires ClosedForm(start, user, s, policy, end)
    ensures ClosedForm(start, user, s + {id}, policy, MarkPaid(end, user, id, policy(KeyNow(end, id))))
  {
    var next := MarkPaid(end, user, id, policy(KeyNow(end, id)));
    hide Sum, PoolKey, RowClosed, LedgerClosed, Spent, ChangeOf, PoolTransfer, PayRefusal, Pool, KeyNow, AddByProgram;
    if PayRefusal(end, user, id).Some? {
      RefusedIsSpent(start, user, s, policy, end, id);
      ClosedSpent(start, user, s, policy, end, id);
    } else {
      PoolAsAtStart(start, user, s, policy, end, id);
      PayLedgerClosed(start, user, s, policy, end, id);
      forall x | x in start.rewards ensures RowClosed(start, user, s + {id}, policy, x, next.rewards[x]) {
        PayRowClosed(start, user, s, policy, end, id, x);
      }
    }
  }

  // ----- the batch

  /** A batch ends in the closed form of the set of its ids. */
  lemma {:induction false} BatchClosed(db: Db, user: Id, ids: seq<Id>, policy: Policy)
    ensures ClosedForm(db, user, Elems(ids), policy, Batch(db, user, ids, ByKey(policy)).db)
    decreases |ids|
  {
    if ids == [] {
      EmptyClosed(db, user, policy);
    } else {
      hide ClosedForm, MarkPaid, KeyNow, Batch;
      var front, last := ids[..|ids| - 1], ids[|ids| - 1];
      var mid := Batch(db, user, front, ByKey(policy)).db;
      BatchClosed(db, user, front, policy);
      PayClosed(db, user, Elems(front), policy, mid, last);
      BatchLast(db, user, ids, policy);
      assert Elems(ids) == Elems(front) + {last};
    }
  }

  lemma BatchLast(db: Db, user: Id, ids: seq<Id>, policy: Policy)
    requires ids != []
    ensures var mid := Batch(db, user, ids[..|ids| - 1], ByKey(policy)).db;
      var last := ids[|ids| - 1];
      Batch(db, user, ids, ByKey(policy)).db == MarkPaid(mid, user, last, policy(KeyNow(mid, last)))
  {
    hide MarkPaid, MarkPaidResult, KeyNow;
  }

  lemma EmptyClosed(db: Db, user: Id, policy: Policy)
    ensures ClosedForm(db, user, {}, policy, db)
  {
    assert forall r :: !Fired(db, user, {}, r);
  }

  // ----- order independence

  function EraseAll(db: Db): Db
  {
    db.(rewards := map r | r in db.rewards :: Erase(db.rewards[r]))
  }

  /** A closed form determines everything but retry counts and program totals. */
  lemma ClosedUnique(start: Db, user: Id, s: set<Id>, policy: Policy, a: Db, b: Db)
    requires ClosedForm(start, user, s, policy, a) && ClosedForm(start, user, s, policy, b)
    ensures a.ledger == b.ledger && EraseAll(a).rewards == EraseAll(b).rewards
  {
    hide Fired, Charged, GroupChange, KeyNow, PoolTransfer, Connected;
    LedgerWithin(start, user, s, policy, a.ledger, b.ledger);
    LedgerWithin(start, user, s, policy, b.ledger, a.ledger);
    assert a.ledger.Keys == b.ledger.Keys;
    forall r | r in start.rewards ensures Erase(a.rewards[r]) == Erase(b.rewards[r]) {
      assert RowClosed(start, user, s, policy, r, a.rewards[r]) && RowClosed(start, user, s, policy, r, b.rewards[r]);
    }
  }

  lemma LedgerWithin(start: Db, user: Id, s: set<Id>, policy: Policy, a: Ledger, b: Ledger)
    requires LedgerClosed(start, user, s, policy, a) && LedgerClosed(start, user, s, policy, b)
    ensures forall k :: k in a ==> k in b && a[k] == b[k]
  {
    hide GroupFired, GroupChange, KeyNow, PoolTransfer, Connected;
    forall k | k in a ensures k in b && a[k] == b[k] {
      if k !in start.ledger {
        var r :| Charged(start, user, s, policy, r) && k == KeyNow(start, r);
        assert HasTransfer(start, a, r) && HasTransfer(start, b, r);
      }
    }
  }

  /**
   * Batches over the same reward ids, in any order and with any repetition, end in the same state, retry counts
   * aside: same paid and held rewards, same transfers, same totals.
   */
  lemma BatchOrderFree(db: Db, user: Id, ids: seq<Id>, others: seq<Id>, policy: Policy)
    requires Sound(db) && Elems(ids) == Elems(others)
    ensures EraseAll(Batch(db, user, ids, ByKey(policy)).db) == EraseAll(Batch(db, user, others, ByKey(policy)).db)
  {
    hide Batch, Sound, RowClosed, LedgerClosed, RoomEvolves, RowsEvolve, LedgerGrows, SplitsEvolve, SettledIn;
    var a, b := Batch(db, user, ids, ByKey(policy)).db, Batch(db, user, others, ByKey(policy)).db;
    BatchClosed(db, user, ids, policy);
    BatchClosed(db, user, others, policy);
    ClosedUnique(db, user, Elems(ids), policy, a, b);
    BatchKeeps(db, user, ids, ByKey(policy));
    BatchKeeps(db, user, others, ByKey(policy));
    SameTotals(db, a, b);
  }

  lemma SameTotals(start: Db, a: Db, b: Db)
    requires TotalsEvolve(start, a) && TotalsEvolve(start, b)
    requires EraseAll(a).rewards == EraseAll(b).rewards
    ensures a.totals == b.totals
  {
    hide Sum, Erase;
    ErasedFacts(a, b);
    forall p | p in start.totals ensures a.totals[p] == b.totals[p] {
      SettledSame(a, b, p);
    }
  }

  lemma ErasedFacts(a: Db, b: Db)
    requires EraseAll(a).rewards == EraseAll(b).rewards
    ensures PoolPaid(a) == PoolPaid(b)
    ensures forall r :: r in PoolPaid(a) ==> SameFacts(a.rewards[r], b.rewards[r])
  {
    assert a.rewards.Keys == EraseAll(a).rewards.Keys == EraseAll(b).rewards.Keys == b.rewards.Keys;
    assert forall r :: r in a.rewards ==>
      EraseAll(a).rewards[r] == Erase(a.rewards[r]) && EraseAll(b).rewards[r] == Erase(b.rewards[r]);
  }

  /**
   * When the provider sent every transfer of a batch, a second batch over the same ids changes nothing at all, however
   * the provider would answer this time.
   */
  lemma SecondBatchIdle(db: Db, user: Id, ids: seq<Id>, more: seq<Id>, policy: Policy, later: Gateway)
    requires forall k :: policy(k).Sent?
    requires Elems(more) <= Elems(ids)
    ensures var first := Batch(db, user, ids, ByKey(policy)).db;
      Batch(first, user, more, later).db == first
    decreases |more|
  {
    var first := Batch(db, user, ids, ByKey(policy)).db;
    if more != [] {
      hide Batch, ClosedForm, MarkPaid, KeyNow;
      var front, last := more[..|more| - 1], more[|more| - 1];
      assert Elems(front) <= Elems(more) && last in Elems(more);
      SecondBatchIdle(db, user, ids, front, policy, later);
      BatchClosed(db, user, ids, policy);
      BatchRecords(first, user, more, later);
      var outcome := OutcomeAt(first, more, later);
      RecordPays(Batch(first, user, front, later), user, last, outcome);
      SecondPaymentIdle(db, user, Elems(ids), policy, first, last, outcome);
    }
  }

  lemma RecordPays(b: BatchState, user: Id, id: Id, outcome: Outcome)
    ensures Record(b, user, id, outcome).db == MarkPaid(b.db, user, id, outcome)
  {
    hide MarkPaid, MarkPaidResult;
  }

  lemma SecondPaymentIdle(start: Db, user: Id, s: set<Id>, policy: Policy, end: Db, id: Id, outcome: Outcome)
    requires ClosedForm(start, user, s, policy, end) && id in s && forall k :: policy(k).Sent?
    ensures MarkPaid(end, user, id, outcome) == end
  {
    hide Sum, PoolKey, LedgerClosed, PoolTransfer, PayRefusal, ChangeOf, KeyNow, Pool;
    if PayRefusal(end, user, id).None? {
      PoolAsAtStart(start, user, s, policy, end, id);
      SamePayment(start, user, s, policy, end, id);
      var r, c := start.rewards[id].researcher, start.rewards[id].currency;
      assert PayRefusal(start, user, id).None? && InGroup(start, id, r, c) ==> GroupFired(start, user, s, r, c);
      assert Fired(start, user, s, id);
      NoBounce(start, policy, id);
      forall x | x in Pool(start, r, c) ensures x in end.rewards && RowAfter(end.rewards[x], Hold) == end.rewards[x] {
        HeldAlready(start, user, s, policy, end, id, x);
      }
      HoldIdle(end, Pool(end, r, c));
      HoldAnyway(end, r, c, policy(KeyNow(start, id)), outcome);
    }
  }

  /** Whether a pool is held does not depend on the provider. */
  lemma HoldAnyway(db: Db, researcher: Id, currency: string, a: Outcome, b: Outcome)
    requires researcher in db.profiles && ChangeOf(db, researcher, currency, a).Hold?
    ensures ChangeOf(db, researcher, currency, b).Hold?
  {
  }

  lemma NoBounce(db: Db, policy: Policy, r: Id)
    requires r in db.rewards && policy(KeyNow(db, r)).Sent?
    ensures !GroupChange(db, policy, r).Bounce?
  {
  }

  lemma HeldAlready(start: Db, user: Id, s: set<Id>, policy: Policy, end: Db, id: Id, x: Id)
    requires ClosedForm(start, user, s, policy, end) && Fired(start, user, s, id)
    requires GroupChange(start, policy, id).Hold?
    requires x in Pool(start, start.rewards[id].researcher, start.rewards[id].currency)
    ensures x in end.rewards && end.rewards[x].held
  {
    hide GroupFired, LedgerClosed;
    SameGroupChange(start, policy, x, id);
    assert RowClosed(start, user, s, policy, x, end.rewards[x]);
  }

  lemma HoldIdle(db: Db, pool: set<Id>)
    requires forall x :: x in pool ==> x in db.rewards && db.rewards[x].held
    ensures Rewrite(db.rewards, pool, Hold) == db.rewards
  {
  }

  lemma BatchRecords(db: Db, user: Id, ids: seq<Id>, gateway: Gateway)
    requires ids != []
    ensures var b := Batch(db, user, ids[..|ids| - 1], gateway);
      Batch(db, user, ids, gateway) == Record(b, user, ids[|ids| - 1], OutcomeAt(b.db, ids, gateway))
  {
    hide Record, OutcomeAt;
  }
}
