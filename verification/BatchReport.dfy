/** What the three lists that a batch returns say about the rewards. */
module BatchReport {
  import opened Collections
  import opened PoolKeys
  import opened RewardModel
  import opened RewardInvariants
  import opened PoolPayments
  import opened RewardRuns
  import opened BatchOrder

  // ----- counts

  /**
   * Every id is reported as often as it was listed; and when every request is answered, as many ids are reported as
   * succeeded as transfers were made.
   */
  lemma {:induction false} ReportCountsTransfers(db: Db, user: Id, ids: seq<Id>, gateway: Gateway)
    requires Sound(db) && Pooled(db) && AnswersAll(gateway)
    ensures var b := Batch(db, user, ids, gateway);
      |b.db.ledger| == |db.ledger| + |b.succeeded| &&
      multiset(b.succeeded) + multiset(b.failed) + multiset(b.held) == multiset(ids)
    decreases |ids|
  {
    hide Sound, Pooled, Whole, SplitsKept, AnswersAll, Evolves, Batch, Record, KeyNow;
    if ids == [] {
      BatchOfNone(db, user, gateway);
    } else {
      var front, last := ids[..|ids| - 1], ids[|ids| - 1];
      var b := Batch(db, user, front, gateway);
      ReportCountsTransfers(db, user, front, gateway);
      BatchKeeps(db, user, front, gateway);
      BatchRecords(db, user, ids, gateway);
      GatewayAnswers(gateway, |ids| - 1, KeyNow(b.db, last));
      RecordCounts(b, user, last, OutcomeAt(b.db, ids, gateway));
      assert ids == front + [last];
    }
  }

  lemma BatchOfNone(db: Db, user: Id, gateway: Gateway)
    ensures Batch(db, user, [], gateway) == BatchState(db, [], [], [])
  {
  }

  function Reported(b: BatchState): multiset<Id>
  {
    multiset(b.succeeded) + multiset(b.failed) + multiset(b.held)
  }

  lemma RecordCounts(b: BatchState, user: Id, id: Id, outcome: Outcome)
    requires Sound(b.db) && Pooled(b.db) && !outcome.Unanswered?
    ensures var c := Record(b, user, id, outcome);
      |c.db.ledger| - |c.succeeded| == |b.db.ledger| - |b.succeeded| && Reported(c) == Reported(b) + multiset{id}
  {
    hide Sound, Pooled, MarkPaid, MarkPaidResult;
    PaymentAddsOne(b.db, user, id, outcome);
  }

  lemma GatewayAnswers(gateway: Gateway, n: nat, k: string)
    requires AnswersAll(gateway)
    ensures !gateway(n, k).Unanswered?
  {
  }

  lemma PaymentAddsOne(db: Db, user: Id, id: Id, outcome: Outcome)
    requires Sound(db) && Pooled(db) && !outcome.Unanswered?
    ensures |MarkPaid(db, user, id, outcome).ledger| ==
            |db.ledger| + if MarkPaidResult(db, user, id, outcome).PaidTogether? then 1 else 0
  {
    hide Sum, PoolKey, Sound, Pooled, InPool;
    if PayRefusal(db, user, id).None? {
      TriggerPayable(db, user, id);
      KeyIsNew(db, db.rewards[id].researcher, db.rewards[id].currency, id);
    }
  }

  // ----- which ids are reported how

  /** The database before the j-th payment of a batch. */
  ghost function Before(db: Db, user: Id, ids: seq<Id>, gateway: Gateway, j: nat): Db
    requires j <= |ids|
  {
    Batch(db, user, ids[..j], gateway).db
  }

  ghost function ResultAt(db: Db, user: Id, ids: seq<Id>, gateway: Gateway, j: nat): PayResult
    requires j < |ids|
  {
    var mid := Before(db, user, ids, gateway, j);
    MarkPaidResult(mid, user, ids[j], gateway(j, KeyNow(mid, ids[j])))
  }

  /** The payment goes through, and r is in its pool. */
  ghost predicate Settles(db: Db, user: Id, id: Id, outcome: Outcome, r: Id)
  {
    MarkPaidResult(db, user, id, outcome).PaidTogether? && id in db.rewards &&
    r in Pool(db, db.rewards[id].researcher, db.rewards[id].currency)
  }

  /** The j-th payment of the batch settles r. */
  ghost predicate SettlesAt(db: Db, user: Id, ids: seq<Id>, gateway: Gateway, j: int, r: Id)
  {
    0 <= j < |ids| &&
    var mid := Before(db, user, ids, gateway, j);
    Settles(mid, user, ids[j], gateway(j, KeyNow(mid, ids[j])), r)
  }

  lemma BeforeNext(db: Db, user: Id, ids: seq<Id>, gateway: Gateway, j: nat)
    requires j < |ids|
    ensures var mid := Before(db, user, ids, gateway, j);
      Batch(db, user, ids[..j + 1], gateway) ==
      Record(Batch(db, user, ids[..j], gateway), user, ids[j], gateway(j, KeyNow(mid, ids[j]))) &&
      Before(db, user, ids, gateway, j + 1) == MarkPaid(mid, user, ids[j], gateway(j, KeyNow(mid, ids[j])))
  {
    hide Record, MarkPaid, MarkPaidResult, KeyNow;
    assert ids[..j + 1][..j] == ids[..j];
    BatchRecords(db, user, ids[..j + 1], gateway);
    var mid := Before(db, user, ids, gateway, j);
    RecordPays(Batch(db, user, ids[..j], gateway), user, ids[j], gateway(j, KeyNow(mid, ids[j])));
  }

  /** A payment makes r paid exactly if it settles it; a paid row stays as it is. */
  lemma PaymentSettles(db: Db, user: Id, id: Id, outcome: Outcome, r: Id)
    requires r in db.rewards
    ensures var b := MarkPaid(db, user, id, outcome);
      r in b.rewards && (db.rewards[r].status == Paid ==> b.rewards[r] == db.rewards[r]) &&
      (db.rewards[r].status != Paid ==> (b.rewards[r].status == Paid <==> Settles(db, user, id, outcome, r)))
  {
    hide Sum, PoolKey, PoolTotal, AddByProgram, CreateTransfer, PoolTransfer;
  }

  /** r is paid before the n-th payment exactly if an earlier one settled it. */
  lemma {:induction false} PaidBefore(db: Db, user: Id, ids: seq<Id>, gateway: Gateway, n: nat, r: Id)
    requires n <= |ids| && r in db.rewards && db.rewards[r].status != Paid
    ensures var mid := Before(db, user, ids, gateway, n);
      r in mid.rewards &&
      (mid.rewards[r].status == Paid <==> exists j :: j < n && SettlesAt(db, user, ids, gateway, j, r))
  {
    hide MarkPaid, Settles, KeyNow, Record;
    if n == 0 {
      BatchOfNone(db, user, gateway);
      assert ids[..0] == [];
    } else {
      var mid := Before(db, user, ids, gateway, n - 1);
      PaidBefore(db, user, ids, gateway, n - 1, r);
      BeforeNext(db, user, ids, gateway, n - 1);
      PaymentSettles(mid, user, ids[n - 1], gateway(n - 1, KeyNow(mid, ids[n - 1])), r);
      if mid.rewards[r].status != Paid && Before(db, user, ids, gateway, n).rewards[r].status == Paid {
        assert SettlesAt(db, user, ids, gateway, n - 1, r);
      }
    }
  }

  predicate Fails(result: PayResult)
  {
    result.Rejected? || result.TransferFailed?
  }

  /** An id that is listed once is in the list that its own payment's result says. */
  lemma {:induction false} ReportedByResult(db: Db, user: Id, ids: seq<Id>, gateway: Gateway, n: nat, i: nat)
    requires n <= |ids| && i < |ids| && NoDup(ids)
    ensures var b := Batch(db, user, ids[..n], gateway);
      (ids[i] in b.succeeded <==> i < n && ResultAt(db, user, ids, gateway, i).PaidTogether?) &&
      (ids[i] in b.failed <==> i < n && Fails(ResultAt(db, user, ids, gateway, i))) &&
      (ids[i] in b.held <==> i < n && ResultAt(db, user, ids, gateway, i).BelowThreshold?)
  {
    hide MarkPaid, MarkPaidResult, KeyNow;
    if n == 0 {
      BatchOfNone(db, user, gateway);
      assert ids[..0] == [];
    } else {
      ReportedByResult(db, user, ids, gateway, n - 1, i);
      BeforeNext(db, user, ids, gateway, n - 1);
    }
  }

  /** list holds the ids at exactly these positions, in the order in which they were listed. */
  ghost predicate Picks(list: seq<Id>, ids: seq<Id>, at: seq<nat>, chosen: set<nat>)
  {
    |list| == |at| && (forall k :: 0 <= k < |at| ==> at[k] < |ids| && list[k] == ids[at[k]]) &&
    (forall j, k :: 0 <= j < k < |at| ==> at[j] < at[k]) && (forall i :: i in at <==> i in chosen)
  }

  /** The positions among the first n whose payment ended like this. */
  ghost function Ended(db: Db, user: Id, ids: seq<Id>, gateway: Gateway, n: nat, how: PayResult -> bool): set<nat>
    requires n <= |ids|
  {
    set i: nat | i < n && how(ResultAt(db, user, ids, gateway, i))
  }

  function Together(): PayResult -> bool
  {
    (result: PayResult) => result.PaidTogether?
  }

  function Below(): PayResult -> bool
  {
    (result: PayResult) => result.BelowThreshold?
  }

  function Failing(): PayResult -> bool
  {
    (result: PayResult) => result.Rejected? || result.TransferFailed?
  }

  lemma PickMore(list: seq<Id>, ids: seq<Id>, at: seq<nat>, chosen: set<nat>, n: nat)
    requires Picks(list, ids, at, chosen) && n < |ids| && forall i :: i in chosen ==> i < n
    ensures Picks(list + [ids[n]], ids, at + [n], chosen + {n})
  {
    forall k | 0 <= k < |at| ensures at[k] < n {
      assert at[k] in at;
    }
  }

  lemma PickNext(list: seq<Id>, next: seq<Id>, ids: seq<Id>, at: seq<nat>, chosen: set<nat>, more: set<nat>, n: nat,
                 hit: bool) returns (positions: seq<nat>)
    requires Picks(list, ids, at, chosen) && n < |ids| && forall i :: i in chosen ==> i < n
    requires next == if hit then list + [ids[n]] else list
    requires more == chosen + if hit then {n} else {}
    ensures Picks(next, ids, positions, more)
  {
    hide Picks;
    positions := if hit then at + [n] else at;
    if hit {
      PickMore(list, ids, at, chosen, n);
    } else {
      assert more == chosen;
    }
  }

  /** Each of the three lists of a batch is the given ids whose payment ended that way, in the given order. */
  lemma {:induction false} ListsInOrder(db: Db, user: Id, ids: seq<Id>, gateway: Gateway, n: nat)
    returns (s: seq<nat>, f: seq<nat>, h: seq<nat>)
    requires n <= |ids|
    ensures var b := Batch(db, user, ids[..n], gateway);
      Picks(b.succeeded, ids, s, Ended(db, user, ids, gateway, n, Together())) &&
      Picks(b.failed, ids, f, Ended(db, user, ids, gateway, n, Failing())) &&
      Picks(b.held, ids, h, Ended(db, user, ids, gateway, n, Below()))
  {
    hide MarkPaid, MarkPaidResult, KeyNow, Picks, ResultAt, Record, Batch, Ended;
    if n == 0 {
      BatchOfNone(db, user, gateway);
      assert ids[..0] == [];
      NobodyEnded(db, user, ids, gateway);
      NothingPicked(ids);
      s, f, h := [], [], [];
    } else {
      var m := n - 1;
      s, f, h := ListsInOrder(db, user, ids, gateway, m);
      var a, b := Batch(db, user, ids[..m], gateway), Batch(db, user, ids[..n], gateway);
      var result := ResultAt(db, user, ids, gateway, m);
      ListsNext(db, user, ids, gateway, m);
      EndedBelow(db, user, ids, gateway, m);
      EndedNext(db, user, ids, gateway, n, Together());
      EndedNext(db, user, ids, gateway, n, Failing());
      EndedNext(db, user, ids, gateway, n, Below());
      s := PickNext(a.succeeded, b.succeeded, ids, s, Ended(db, user, ids, gateway, m, Together()),
                    Ended(db, user, ids, gateway, n, Together()), m, result.PaidTogether?);
      f := PickNext(a.failed, b.failed, ids, f, Ended(db, user, ids, gateway, m, Failing()),
                    Ended(db, user, ids, gateway, n, Failing()), m, result.Rejected? || result.TransferFailed?);
      h := PickNext(a.held, b.held, ids, h, Ended(db, user, ids, gateway, m, Below()),
                    Ended(db, user, ids, gateway, n, Below()), m, result.BelowThreshold?);
    }
  }

  lemma ListsNext(db: Db, user: Id, ids: seq<Id>, gateway: Gateway, m: nat)
    requires m < |ids|
    ensures var a, b := Batch(db, user, ids[..m], gateway), Batch(db, user, ids[..m + 1], gateway);
      var result := ResultAt(db, user, ids, gateway, m);
      b.succeeded == (if result.PaidTogether? then a.succeeded + [ids[m]] else a.succeeded) &&
      b.held == (if result.BelowThreshold? then a.held + [ids[m]] else a.held) &&
      b.failed == if result.Rejected? || result.TransferFailed? then a.failed + [ids[m]] else a.failed
  {
    hide MarkPaid, MarkPaidResult, KeyNow, ResultAt, Record, Batch;
    var mid := Before(db, user, ids, gateway, m);
    BeforeNext(db, user, ids, gateway, m);
    NextResult(db, user, ids, gateway, m);
    RecordLists(Batch(db, user, ids[..m], gateway), user, ids[m], gateway(m, KeyNow(mid, ids[m])));
  }

  lemma RecordLists(a: BatchState, user: Id, id: Id, outcome: Outcome)
    ensures var b, result := Record(a, user, id, outcome), MarkPaidResult(a.db, user, id, outcome);
      b.succeeded == (if result.PaidTogether? then a.succeeded + [id] else a.succeeded) &&
      b.held == (if result.BelowThreshold? then a.held + [id] else a.held) &&
      b.failed == if result.Rejected? || result.TransferFailed? then a.failed + [id] else a.failed
  {
    hide MarkPaid, MarkPaidResult;
  }

  lemma NobodyEnded(db: Db, user: Id, ids: seq<Id>, gateway: Gateway)
    ensures forall how :: Ended(db, user, ids, gateway, 0, how) == {}
  {
  }

  lemma EndedBelow(db: Db, user: Id, ids: seq<Id>, gateway: Gateway, n: nat)
    requires n <= |ids|
    ensures forall how, i :: i in Ended(db, user, ids, gateway, n, how) ==> i < n
  {
  }

  lemma NothingPicked(ids: seq<Id>)
    ensures Picks([], ids, [], {})
  {
  }

  lemma NextResult(db: Db, user: Id, ids: seq<Id>, gateway: Gateway, n: nat)
    requires n < |ids|
    ensures var mid := Before(db, user, ids, gateway, n);
      ResultAt(db, user, ids, gateway, n) == MarkPaidResult(mid, user, ids[n], gateway(n, KeyNow(mid, ids[n])))
  {
    hide MarkPaidResult, KeyNow;
  }

  lemma EndedNext(db: Db, user: Id, ids: seq<Id>, gateway: Gateway, n: nat, how: PayResult -> bool)
    requires 0 < n <= |ids|
    ensures Ended(db, user, ids, gateway, n, how) ==
            Ended(db, user, ids, gateway, n - 1, how) +
            if how(ResultAt(db, user, ids, gateway, n - 1)) then {n - 1} else {}
  {
    hide ResultAt;
  }

  // ----- a held group stays held through the batch

  /** The group's pool is this set, worth this much, below its researcher's threshold. */
  ghost predicate Short(db: Db, researcher: Id, currency: string, pool: set<Id>, total: int)
  {
    researcher in db.profiles && Pool(db, researcher, currency) == pool &&
    PoolTotal(db, researcher, currency) == total && total < db.profiles[researcher].threshold
  }

  lemma ShortStays(db: Db, user: Id, id: Id, outcome: Outcome, researcher: Id, currency: string, pool: set<Id>,
                   total: int)
    requires Short(db, researcher, currency, pool, total)
    ensures Short(MarkPaid(db, user, id, outcome), researcher, currency, pool, total)
  {
    hide Sum, PoolKey, AddByProgram, CreateTransfer, PoolTransfer;
    var b := MarkPaid(db, user, id, outcome);
    assert forall r :: SplitsOf(b, r) == SplitsOf(db, r);
    ShortPool(db, user, id, outcome, researcher, currency);
    SumSame(pool, Amounts(db.rewards), Amounts(b.rewards));
  }

  lemma ShortPool(db: Db, user: Id, id: Id, outcome: Outcome, researcher: Id, currency: string)
    requires researcher in db.profiles && PoolTotal(db, researcher, currency) < db.profiles[researcher].threshold
    ensures var b := MarkPaid(db, user, id, outcome);
      Pool(b, researcher, currency) == Pool(db, researcher, currency) && b.profiles == db.profiles &&
      forall r :: r in db.rewards ==> r in b.rewards && b.rewards[r].amount == db.rewards[r].amount
  {
    hide Sum, PoolKey, AddByProgram, CreateTransfer, PoolTransfer, PoolTotal;
    var b := MarkPaid(db, user, id, outcome);
    assert forall r :: SplitsOf(b, r) == SplitsOf(db, r);
  }

  lemma {:induction false} ShortThrough(db: Db, user: Id, ids: seq<Id>, gateway: Gateway, i: nat, j: nat,
                                        researcher: Id, currency: string, pool: set<Id>, total: int)
    requires i <= j <= |ids| && Short(Before(db, user, ids, gateway, i), researcher, currency, pool, total)
    ensures Short(Before(db, user, ids, gateway, j), researcher, currency, pool, total)
    decreases j
  {
    hide Short, MarkPaid, KeyNow, Record;
    if i < j {
      var mid := Before(db, user, ids, gateway, j - 1);
      ShortThrough(db, user, ids, gateway, i, j - 1, researcher, currency, pool, total);
      BeforeNext(db, user, ids, gateway, j - 1);
      ShortStays(mid, user, ids[j - 1], gateway(j - 1, KeyNow(mid, ids[j - 1])), researcher, currency, pool, total);
    }
  }

  lemma HeldIsShort(db: Db, user: Id, id: Id, outcome: Outcome)
    requires MarkPaidResult(db, user, id, outcome).BelowThreshold?
    ensures id in db.rewards
    ensures var r, c := db.rewards[id].researcher, db.rewards[id].currency;
      Short(db, r, c, Pool(db, r, c), PoolTotal(db, r, c)) && id in Pool(db, r, c)
  {
    hide Sum, PoolKey, PoolTotal;
  }

  lemma ShortSettlesNothing(db: Db, user: Id, id: Id, outcome: Outcome, researcher: Id, currency: string,
                            pool: set<Id>, total: int, r: Id)
    requires Short(db, researcher, currency, pool, total) && r in pool
    ensures !Settles(db, user, id, outcome, r)
  {
    hide Sum, PoolKey, PoolTotal;
  }

  /** A reward whose own payment was held is not settled by a later one of the batch. */
  lemma HeldNotSettled(db: Db, user: Id, ids: seq<Id>, gateway: Gateway, i: nat, j: nat)
    requires i < j < |ids| && ResultAt(db, user, ids, gateway, i).BelowThreshold?
    ensures !SettlesAt(db, user, ids, gateway, j, ids[i])
  {
    hide Short, MarkPaid, MarkPaidResult, KeyNow, Before, Settles, Pool, PoolTotal;
    var mid, late := Before(db, user, ids, gateway, i), Before(db, user, ids, gateway, j);
    HeldIsShort(mid, user, ids[i], gateway(i, KeyNow(mid, ids[i])));
    var r, c := mid.rewards[ids[i]].researcher, mid.rewards[ids[i]].currency;
    ShortThrough(db, user, ids, gateway, i, j, r, c, Pool(mid, r, c), PoolTotal(mid, r, c));
    ShortSettlesNothing(late, user, ids[j], gateway(j, KeyNow(late, ids[j])), r, c, Pool(mid, r, c),
                        PoolTotal(mid, r, c), ids[i]);
  }

  // ----- failed and yet paid

  /** A payment's own reward is in its pool. */
  lemma SettlesItself(db: Db, user: Id, id: Id, outcome: Outcome)
    ensures MarkPaidResult(db, user, id, outcome).PaidTogether? <==> Settles(db, user, id, outcome, id)
  {
    hide Sum, PoolKey, PoolTotal;
  }

  /** What is paid is not settled again, and asking for it is rejected. */
  lemma PaidIsRejected(db: Db, user: Id, id: Id, outcome: Outcome, r: Id)
    requires r in db.rewards && db.rewards[r].status == Paid
    ensures !Settles(db, user, id, outcome, r)
    ensures id == r ==> MarkPaidResult(db, user, id, outcome).Rejected?
  {
    hide Sum, PoolKey, ChangeOf;
  }

  /**
   * An id that was not paid at the start is reported as failed although its reward is paid at the end exactly when the
   * payment of another listed id settled it: an earlier one's, or a later one's after its own had failed.
   */
  lemma FailedYetPaidIff(db: Db, user: Id, ids: seq<Id>, gateway: Gateway, i: nat)
    requires NoDup(ids) && i < |ids| && ids[i] in db.rewards && db.rewards[ids[i]].status != Paid
    ensures var b := Batch(db, user, ids, gateway);
      ids[i] in b.db.rewards &&
      (ids[i] in b.failed && b.db.rewards[ids[i]].status == Paid <==>
       exists j :: j != i && SettlesAt(db, user, ids, gateway, j, ids[i]))
  {
    hide Batch, Before, ResultAt, SettlesAt;
    var id := ids[i];
    assert ids[..|ids|] == ids;
    WholeBatch(db, user, ids, gateway);
    PaidBefore(db, user, ids, gateway, |ids|, id);
    ReportedByResult(db, user, ids, gateway, |ids|, i);
    OwnResult(db, user, ids, gateway, i);
    forall j | j != i && SettlesAt(db, user, ids, gateway, j, id)
      ensures j < |ids| && Fails(ResultAt(db, user, ids, gateway, i))
    {
      SettledElsewhere(db, user, ids, gateway, i, j);
    }
  }

  lemma WholeBatch(db: Db, user: Id, ids: seq<Id>, gateway: Gateway)
    ensures Before(db, user, ids, gateway, |ids|) == Batch(db, user, ids, gateway).db
  {
    assert ids[..|ids|] == ids;
  }

  lemma OwnResult(db: Db, user: Id, ids: seq<Id>, gateway: Gateway, i: nat)
    requires i < |ids|
    ensures ResultAt(db, user, ids, gateway, i).PaidTogether? <==> SettlesAt(db, user, ids, gateway, i, ids[i])
  {
    hide Settles, MarkPaidResult, KeyNow, Before;
    var mid := Before(db, user, ids, gateway, i);
    SettlesItself(mid, user, ids[i], gateway(i, KeyNow(mid, ids[i])));
  }

  lemma SettledElsewhere(db: Db, user: Id, ids: seq<Id>, gateway: Gateway, i: nat, j: int)
    requires i < |ids| && j != i && ids[i] in db.rewards && db.rewards[ids[i]].status != Paid
    requires SettlesAt(db, user, ids, gateway, j, ids[i])
    ensures 0 <= j < |ids| && Fails(ResultAt(db, user, ids, gateway, i))
  {
    hide Settles, MarkPaidResult, KeyNow, Before;
    var id := ids[i];
    var mid, other := Before(db, user, ids, gateway, i), Before(db, user, ids, gateway, j);
    if j < i {
      PaidBefore(db, user, ids, gateway, i, id);
      assert mid.rewards[id].status == Paid;
      PaidIsRejected(mid, user, id, gateway(i, KeyNow(mid, id)), id);
    } else {
      if ResultAt(db, user, ids, gateway, i).BelowThreshold? { HeldNotSettled(db, user, ids, gateway, i, j); }
      OwnResult(db, user, ids, gateway, i);
      if SettlesAt(db, user, ids, gateway, i, id) {
        PaidBefore(db, user, ids, gateway, j, id);
        PaidIsRejected(other, user, ids[j], gateway(j, KeyNow(other, ids[j])), id);
      }
    }
  }

  // ----- the same, as it can be told before the call

  /** Reward x may be paid, and its payment asks for the pool of id's group. */
  predicate Triggers(db: Db, user: Id, x: Id, id: Id)
    requires id in db.rewards
  {
    PayRefusal(db, user, x).None? && InGroup(db, x, db.rewards[id].researcher, db.rewards[id].currency)
  }

  /** The pool of id's group contains id and is worth its researcher's threshold. */
  ghost predicate Enough(db: Db, id: Id)
  {
    Poolable(db, id) &&
    var r, c := db.rewards[id].researcher, db.rewards[id].currency;
    r in db.profiles && PoolTotal(db, r, c) >= db.profiles[r].threshold
  }

  lemma FirstTrigger(db: Db, user: Id, ids: seq<Id>, id: Id, j: nat) returns (first: nat)
    requires id in db.rewards && j < |ids| && Triggers(db, user, ids[j], id)
    ensures first <= j && Triggers(db, user, ids[first], id)
    ensures forall k :: 0 <= k < first ==> !Triggers(db, user, ids[k], id)
  {
    hide Triggers;
    first := j;
    if k :| 0 <= k < j && Triggers(db, user, ids[k], id) { first := FirstTrigger(db, user, ids, id, k); }
  }

  lemma TriggeredBefore(db: Db, user: Id, ids: seq<Id>, id: Id, j: nat)
    requires id in db.rewards && j <= |ids|
    ensures GroupFired(db, user, Elems(ids[..j]), db.rewards[id].researcher, db.rewards[id].currency) <==>
            exists k :: 0 <= k < j && Triggers(db, user, ids[k], id)
  {
    hide PayRefusal;
    var r, c := db.rewards[id].researcher, db.rewards[id].currency;
    if GroupFired(db, user, Elems(ids[..j]), r, c) {
      var x :| x in Elems(ids[..j]) && PayRefusal(db, user, x).None? && InGroup(db, x, r, c);
      var k :| 0 <= k < j && ids[..j][k] == x;
      assert Triggers(db, user, ids[k], id);
    }
    if k :| 0 <= k < j && Triggers(db, user, ids[k], id) {
      assert ids[..j][k] in Elems(ids[..j]);
    }
  }

  /** The first payable id of a group that is worth enough settles it. */
  lemma TriggerSettles(db: Db, user: Id, ids: seq<Id>, policy: Policy, j: nat, id: Id)
    requires forall k :: policy(k).Sent?
    requires Enough(db, id) && j < |ids| && Triggers(db, user, ids[j], id)
    requires forall k :: 0 <= k < j ==> !Triggers(db, user, ids[k], id)
    ensures SettlesAt(db, user, ids, ByKey(policy), j, id)
  {
    hide Sum, PoolKey, Batch, ClosedForm, PoolTotal, KeyNow, Pool;
    var mid := Before(db, user, ids, ByKey(policy), j);
    BatchClosed(db, user, ids[..j], policy);
    TriggeredBefore(db, user, ids, id, j);
    if PayRefusal(mid, user, ids[j]).Some? {
      RefusedIsSpent(db, user, Elems(ids[..j]), policy, mid, ids[j]);
      assert false;
    }
    SamePayment(db, user, Elems(ids[..j]), policy, mid, ids[j]);
    PoolAsAtStart(db, user, Elems(ids[..j]), policy, mid, ids[j]);
    InOwnPool(db, id);
    FrameKept(db, user, Elems(ids[..j]), policy, mid);
  }

  lemma FrameKept(start: Db, user: Id, s: set<Id>, policy: Policy, end: Db)
    requires ClosedForm(start, user, s, policy, end)
    ensures end.profiles == start.profiles && end.rewards.Keys == start.rewards.Keys
  {
  }

  /** What can be told from a payment that settles id, with all requests sent. */
  lemma SettledMeans(db: Db, user: Id, ids: seq<Id>, policy: Policy, j: int, id: Id)
    requires forall k :: policy(k).Sent?
    requires id in db.rewards && SettlesAt(db, user, ids, ByKey(policy), j, id)
    ensures 0 <= j < |ids| && Enough(db, id) && Triggers(db, user, ids[j], id)
    ensures forall k :: 0 <= k < j ==> !Triggers(db, user, ids[k], id)
  {
    hide Sum, PoolKey, Batch, ClosedForm, PoolTotal, KeyNow;
    var mid := Before(db, user, ids, ByKey(policy), j);
    var s := Elems(ids[..j]);
    BatchClosed(db, user, ids[..j], policy);
    SamePayment(db, user, s, policy, mid, ids[j]);
    PoolAsAtStart(db, user, s, policy, mid, ids[j]);
    FrameKept(db, user, s, policy, mid);
    TriggeredBefore(db, user, ids, id, j);
  }

  /**
   * When the provider sends every transfer, it can be told before the call which paid rewards will be reported as
   * failed: those of a group that is worth enough, with another payable id listed earlier, or anywhere if the reward's
   * own payment is refused.
   */
  lemma FailedYetPaidBeforeIff(db: Db, user: Id, ids: seq<Id>, policy: Policy, i: nat)
    requires forall k :: policy(k).Sent?
    requires NoDup(ids) && i < |ids| && ids[i] in db.rewards && db.rewards[ids[i]].status != Paid
    ensures var b := Batch(db, user, ids, ByKey(policy));
      ids[i] in b.db.rewards &&
      (ids[i] in b.failed && b.db.rewards[ids[i]].status == Paid <==>
       Enough(db, ids[i]) &&
       exists j :: 0 <= j < |ids| && j != i && Triggers(db, user, ids[j], ids[i]) &&
                   (j < i || PayRefusal(db, user, ids[i]).Some?))
  {
    hide Batch, Before, SettlesAt, Enough, PayRefusal;
    var id := ids[i];
    FailedYetPaidIff(db, user, ids, ByKey(policy), i);
    if j :| j != i && SettlesAt(db, user, ids, ByKey(policy), j, id) {
      SettledMeans(db, user, ids, policy, j, id);
    }
    if Enough(db, id) {
      if j :| 0 <= j < |ids| && j != i && Triggers(db, user, ids[j], id) && (j < i || PayRefusal(db, user, id).Some?) {
        var first := FirstTrigger(db, user, ids, id, j);
        TriggerSettles(db, user, ids, policy, first, id);
        assert first != i;
      }
    }
  }
}
