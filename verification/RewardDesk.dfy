/** The reward actions as they run, row by row, against the specification of module RewardModel. */
module RewardDesk {
  import opened Collections
  import opened PoolKeys
  import opened RewardModel
  import opened RewardInvariants
  import opened PoolPayments
  import opened RewardTheorems
  import opened RewardReopening

  lemma ProposalKeeps(db: Db, user: Id, submission: Id, newId: Id, amount: int, currency: string)
    requires Sound(db) && newId !in db.rewards
    ensures var b := Propose(db, user, submission, newId, amount, currency);
      Sound(b) && (OnePerSubmission(db) ==> OnePerSubmission(b))
  {
    hide Sound, Evolves, Preserves, PoolsStay, Propose, MarkPaid, Batch, PaySplits, Configure, RowFits;
    var b := Propose(db, user, submission, newId, amount, currency);
    QuietStep(db, DoPropose(user, submission, newId, amount, currency));
    SoundIsBacked(b);
    if OnePerSubmission(db) { NoSecondReward(db, user, submission, newId, amount, currency); }
  }

  lemma PaymentKeeps(db: Db, user: Id, id: Id, outcome: Outcome)
    requires Sound(db)
    ensures Sound(MarkPaid(db, user, id, outcome))
  {
    hide Sound, MarkPaid, Evolves, Preserves;
    PayStep(db, user, id, outcome);
  }

  lemma ProposalAddsOne(db: Db, user: Id, submission: Id, newId: Id, amount: int, currency: string)
    requires MayPropose(db, user, submission, amount) && newId !in db.rewards
    ensures var b := Propose(db, user, submission, newId, amount, currency);
      newId in b.rewards && IsProposal(b.rewards[newId], db.submissions[submission], submission, amount, currency) &&
      b.rewards - {newId} == db.rewards && b == db.(rewards := b.rewards) &&
      forall u, a :: !MayPropose(b, u, submission, a)
  {
    hide IsOwner;
  }

  /** The row of a new proposal: the submission's people and program, the amount asked for, nothing decided or paid. */
  predicate IsProposal(row: Reward, sub: Submission, submission: Id, amount: int, currency: string)
  {
    row.submission == submission && row.org == sub.org && row.program == sub.program &&
    row.researcher == sub.researcher && row.amount == amount && row.currency == currency && row.status == Pending &&
    row.approvedBy == None && row.payout == NotStarted && row.transfer == None && !row.held && row.retries == 0
  }

  lemma NoSecondReward(db: Db, user: Id, submission: Id, newId: Id, amount: int, currency: string)
    requires OnePerSubmission(db) && newId !in db.rewards
    ensures var b := Propose(db, user, submission, newId, amount, currency);
      forall r, s :: r in b.rewards && s in b.rewards && b.rewards[r].submission == b.rewards[s].submission ==> r == s
  {
    hide RowFits, IsOwner;
  }

  /** Whatever the status was, a decision leaves every approved or paid reward approved by its owner. */
  lemma DecisionsAreHuman(db: Db, user: Id, id: Id, reasonGiven: bool)
    requires HumanApproved(db)
    ensures HumanApproved(Approve(db, user, id)) && HumanApproved(Decline(db, user, id, reasonGiven))
  {
  }

  lemma DecisionKeeps(db: Db, user: Id, id: Id, reasonGiven: bool)
    ensures HumanApproved(db) ==>
      HumanApproved(Approve(db, user, id)) && HumanApproved(Decline(db, user, id, reasonGiven))
    ensures Sound(db) ==>
      (Sound(Approve(db, user, id)) <==> !ReopensPooled(db, user, id)) &&
      (Sound(Decline(db, user, id, reasonGiven)) <==> !(reasonGiven && ReopensPooled(db, user, id)))
  {
    hide Sound, HumanApproved, ReopensPooled, Approve, Decline;
    if HumanApproved(db) { DecisionsAreHuman(db, user, id, reasonGiven); }
    if Sound(db) {
      ApproveSoundIff(db, user, id);
      DeclineSoundIff(db, user, id, reasonGiven);
    }
  }

  lemma RewriteNone(rows: map<Id, Reward>, change: Change)
    ensures Rewrite(rows, {}, change) == rows
  {
    hide RowAfter;
  }

  lemma RewriteOne(rows: map<Id, Reward>, done: set<Id>, id: Id, change: Change)
    requires id in rows && id !in done
    ensures var before := Rewrite(rows, done, change);
      id in before && before[id := RowAfter(before[id], change)] == Rewrite(rows, done + {id}, change)
  {
    hide RowAfter;
  }

  lemma PrefixSum(rows: seq<Id>, i: nat, f: Id -> int)
    requires NoDup(rows) && i < |rows|
    ensures Elems(rows[..i + 1]) == Elems(rows[..i]) + {rows[i]} && rows[i] !in rows[..i]
    ensures Sum(Elems(rows[..i + 1]), f) == Sum(Elems(rows[..i]), f) + f(rows[i])
  {
    hide Sum;
    assert rows[..i + 1] == rows[..i] + [rows[i]];
    SumPick(Elems(rows[..i + 1]), rows[i], f);
    assert Elems(rows[..i + 1]) - {rows[i]} == Elems(rows[..i]);
  }

  lemma PrefixPart(rows: seq<Id>, i: nat, program: Id -> Id, p: Id, f: Id -> int)
    requires NoDup(rows) && i < |rows|
    ensures Sum(Part(Elems(rows[..i + 1]), program, p), f) ==
            Sum(Part(Elems(rows[..i]), program, p), f) + if program(rows[i]) == p then f(rows[i]) else 0
  {
    hide Sum;
    PrefixSum(rows, i, f);
    var more, less := Part(Elems(rows[..i + 1]), program, p), Part(Elems(rows[..i]), program, p);
    if program(rows[i]) == p {
      SumPick(more, rows[i], f);
      assert more - {rows[i]} == less;
    } else {
      assert more == less;
    }
  }

  lemma AddNone(totals: map<Id, int>, rows: map<Id, Reward>)
    ensures AddByProgram(totals, rows, {}) == totals
  {
    var none: set<Id> := {};
    forall p | p in totals ensures Sum(Part(none, Programs(rows), p), Amounts(rows)) == 0 {
      assert Part(none, Programs(rows), p) == none;
    }
  }

  lemma AddOne(totals: map<Id, int>, rows: map<Id, Reward>, pool: seq<Id>, i: nat)
    requires NoDup(pool) && i < |pool| && pool[i] in rows
    ensures var row := rows[pool[i]];
      var before := AddByProgram(totals, rows, Elems(pool[..i]));
      var after := AddByProgram(totals, rows, Elems(pool[..i + 1]));
      after == if row.program in before then before[row.program := before[row.program] + row.amount] else before
  {
    hide Sum;
    forall p | p in totals {
      PrefixPart(pool, i, Programs(rows), p, Amounts(rows));
    }
  }

  /** Adding a pair below l, where l wins, is a transfer request on the merged map. */
  lemma UpdateUnder<K, V>(a: map<K, V>, k: K, v: V, l: map<K, V>)
    requires k !in a
    ensures a[k := v] + l == if k in a + l then a + l else (a + l)[k := v]
  {
  }

  lemma OneMoreSplit(db: Db, done: set<Id>, s: Id, gateway: string -> Outcome)
    requires forall x :: x in done + {s} ==> x in db.splits && db.splits[x].reward in db.rewards
    requires s !in done && Connected(db, db.splits[s].researcher)
    ensures SplitTransfers(db, done + {s}, gateway) + db.ledger ==
            CreateTransfer(SplitTransfers(db, done, gateway) + db.ledger, SplitKey(s), SplitTransfer(db, s),
                           gateway(SplitKey(s)))
  {
    hide SplitTransfers, SplitTransfer, Connected;
    if gateway(SplitKey(s)).Refused? {
      SameTransfers(db, done, s, gateway);
    } else {
      OneMoreKey(db, done, s, gateway);
      UpdateUnder(SplitTransfers(db, done, gateway), SplitKey(s), SplitTransfer(db, s), db.ledger);
    }
  }

  /** What one more request does to rows and ledger. */
  lemma AfterOneMore(db: Db, done: set<Id>, s: Id, gateway: string -> Outcome)
    requires forall x :: x in done + {s} ==> x in db.splits && db.splits[x].reward in db.rewards
    requires s !in done
    ensures var a, b := AfterSplits(db, done, gateway), AfterSplits(db, done + {s}, gateway);
      s in a.splits && a.splits[s] == db.splits[s] && a.rewards == db.rewards && a.profiles == db.profiles &&
      b == a.(splits := a.splits[s := SplitRow(db, s, gateway)],
              ledger := if Connected(db, db.splits[s].researcher)
                        then CreateTransfer(a.ledger, SplitKey(s), SplitTransfer(db, s), gateway(SplitKey(s)))
                        else a.ledger)
  {
    hide SplitTransfers, SplitRow, SplitTransfer, Connected;
    if Connected(db, db.splits[s].researcher) {
      OneMoreSplit(db, done, s, gateway);
    } else {
      Unreached(db, s, gateway);
      SameTransfers(db, done, s, gateway);
    }
    AfterRows(db, done, s, gateway);
  }

  lemma AfterRows(db: Db, done: set<Id>, s: Id, gateway: string -> Outcome)
    requires forall x :: x in done + {s} ==> x in db.splits && db.splits[x].reward in db.rewards
    requires s !in done
    ensures var a, b := AfterSplits(db, done, gateway).splits, AfterSplits(db, done + {s}, gateway).splits;
      s in a && a[s] == db.splits[s] && b == a[s := SplitRow(db, s, gateway)]
  {
    hide SplitTransfers, SplitRow;
  }

  lemma Unreached(db: Db, s: Id, gateway: string -> Outcome)
    requires s in db.splits && !Connected(db, db.splits[s].researcher)
    ensures !SplitReaches(db, s, gateway)
  {
  }

  lemma SameTransfers(db: Db, done: set<Id>, s: Id, gateway: string -> Outcome)
    requires forall x :: x in done + {s} ==> x in db.splits && db.splits[x].reward in db.rewards
    requires !SplitReaches(db, s, gateway)
    ensures SplitTransfers(db, done + {s}, gateway) == SplitTransfers(db, done, gateway)
  {
    hide SplitTransfer, Connected;
    forall x | x in done && SplitReaches(db, x, gateway)
      ensures SplitKey(x) in SplitTransfers(db, done + {s}, gateway)
    {
      assert x in done + {s};
    }
  }

  lemma OneMoreKey(db: Db, done: set<Id>, s: Id, gateway: string -> Outcome)
    requires forall x :: x in done + {s} ==> x in db.splits && db.splits[x].reward in db.rewards
    requires SplitReaches(db, s, gateway) && s !in done
    ensures SplitTransfers(db, done + {s}, gateway) ==
            SplitTransfers(db, done, gateway)[SplitKey(s) := SplitTransfer(db, s)]
    ensures SplitKey(s) !in SplitTransfers(db, done, gateway)
  {
    hide SplitTransfer, Connected;
    var a, b := SplitTransfers(db, done, gateway), SplitTransfers(db, done + {s}, gateway);
    forall k ensures k in b <==> k in a || k == SplitKey(s) {
      if k in b {
        var x :| x in done + {s} && SplitReaches(db, x, gateway) && k == SplitKey(x);
        assert x != s ==> x in done;
      }
      if k in a {
        var x :| x in done && SplitReaches(db, x, gateway) && k == SplitKey(x);
        assert x in done + {s};
      }
      assert s in done + {s};
    }
  }

  class RewardDesk {
    const owners: map<Id, Id>
    const admins: set<Id>
    const submissions: map<Id, Submission>
    var profiles: map<Id, Profile>
    var rewards: map<Id, Reward>
    var splits: map<Id, Split>
    var minted: set<Id>
    var totals: map<Id, int>
    var ledger: Ledger

    constructor (owners: map<Id, Id>, admins: set<Id>, submissions: map<Id, Submission>,
                 profiles: map<Id, Profile>, totals: map<Id, int>)
      ensures View() == Db(owners, admins, submissions, profiles, map[], map[], {}, totals, map[])
    {
      this.owners, this.admins, this.submissions := owners, admins, submissions;
      this.profiles, this.totals := profiles, totals;
      rewards, splits, minted, ledger := map[], map[], {}, map[];
    }

    function View(): Db
      reads this
    {
      Db(owners, admins, submissions, profiles, rewards, splits, minted, totals, ledger)
    }

    /**
     * A proposal that succeeds adds one pending reward, after which none can be proposed for the submission any more;
     * no other row and no money is touched, and the invariants are kept.
     */
    method ProposeReward(user: Id, submission: Id, newId: Id, amount: int, currency: string) returns (ok: bool)
      requires newId !in rewards
      modifies this
      ensures View() == Propose(old(View()), user, submission, newId, amount, currency)
      ensures Sound(old(View())) ==> Sound(View())
      ensures Sound(old(View())) && OnePerSubmission(old(View())) ==> OnePerSubmission(View())
      ensures ok <==>
        submission in submissions && submissions[submission].accepted && amount > 0 &&
        (user in admins || (submissions[submission].org in owners && owners[submissions[submission].org] == user)) &&
        forall id :: id in old(rewards) ==> old(rewards)[id].submission != submission
      ensures ok ==>
        newId in rewards && IsProposal(rewards[newId], submissions[submission], submission, amount, currency)
      ensures ok ==> forall u, a :: !MayPropose(View(), u, submission, a)
      ensures ok ==> rewards - {newId} == old(rewards) && View() == old(View()).(rewards := rewards)
      ensures !ok ==> View() == old(View())
    {
      if Sound(View()) { ProposalKeeps(View(), user, submission, newId, amount, currency); }
      if MayPropose(View(), user, submission, amount) {
        ProposalAddsOne(View(), user, submission, newId, amount, currency);
      }
      hide Sound, OnePerSubmission, Connected, IsProposal;
      if submission !in submissions { return false; }
      var sub := submissions[submission];
      if !IsOwner(View(), user, sub.org) && user !in admins { return false; }
      if !sub.accepted || amount <= 0 { return false; }
      if exists id :: id in rewards && rewards[id].submission == submission { return false; }
      rewards := rewards[newId := Reward(submission, sub.org, sub.program, sub.researcher, amount, currency,
                                         Pending, None, NotStarted, None, false, 0)];
      return true;
    }

    /**
     * Whatever the status, a reward approved here was approved by its organization's owner. The other invariants
     * survive exactly unless the reward had been settled by a pool transfer.
     */
    method ApproveReward(user: Id, id: Id) returns (ok: bool)
      modifies this
      ensures View() == Approve(old(View()), user, id)
      ensures HumanApproved(old(View())) ==> HumanApproved(View())
      ensures Sound(old(View())) ==> (Sound(View()) <==> !ReopensPooled(old(View()), user, id))
      ensures ok <==> id in old(rewards) && old(rewards)[id].org in owners && owners[old(rewards)[id].org] == user
      ensures ok ==> rewards == old(rewards)[id := old(rewards)[id].(status := Approved, approvedBy := Some(user))]
      ensures ledger == old(ledger) && totals == old(totals) && splits == old(splits)
      ensures !ok ==> View() == old(View())
    {
      DecisionKeeps(View(), user, id, false);
      hide Sound, HumanApproved, ReopensPooled;
      if id !in rewards || !IsOwner(View(), user, rewards[id].org) { return false; }
      rewards := rewards[id := rewards[id].(status := Approved, approvedBy := Some(user))];
      return true;
    }

    /** Declining needs a reason and the owner; it keeps the invariants under the same condition. */
    method DeclineReward(user: Id, id: Id, reasonGiven: bool) returns (ok: bool)
      modifies this
      ensures View() == Decline(old(View()), user, id, reasonGiven)
      ensures HumanApproved(old(View())) ==> HumanApproved(View())
      ensures Sound(old(View())) ==>
        (Sound(View()) <==> !(reasonGiven && ReopensPooled(old(View()), user, id)))
      ensures ok <==>
        reasonGiven && id in old(rewards) && old(rewards)[id].org in owners && owners[old(rewards)[id].org] == user
      ensures ok ==> rewards == old(rewards)[id := old(rewards)[id].(status := Declined)]
      ensures ledger == old(ledger) && totals == old(totals) && splits == old(splits)
      ensures !ok ==> View() == old(View())
    {
      DecisionKeeps(View(), user, id, reasonGiven);
      hide Sound, HumanApproved, ReopensPooled;
      if !reasonGiven || id !in rewards || !IsOwner(View(), user, rewards[id].org) { return false; }
      rewards := rewards[id := rewards[id].(status := Declined)];
      return true;
    }

    /** The pool query: its rows come in no particular order. */
    method ListPool(researcher: Id, currency: string) returns (rows: seq<Id>)
      ensures NoDup(rows) && Elems(rows) == Pool(View(), researcher, currency)
    {
      rows := [];
      var todo := Pool(View(), researcher, currency);
      while todo != {}
        invariant NoDup(rows) && Elems(rows) !! todo
        invariant Elems(rows) + todo == Pool(View(), researcher, currency)
        decreases todo
      {
        var id :| id in todo;
        assert Elems(rows + [id]) == Elems(rows) + {id};
        assert forall i :: 0 <= i < |rows| ==> rows[i] in Elems(rows);
        rows, todo := rows + [id], todo - {id};
      }
    }

    method PoolTotalOf(rows: seq<Id>) returns (total: int)
      requires NoDup(rows) && Elems(rows) <= rewards.Keys
      ensures total == Sum(Elems(rows), Amounts(rewards))
    {
      total := 0;
      for i := 0 to |rows|
        invariant total == Sum(Elems(rows[..i]), Amounts(rewards))
      {
        PrefixSum(rows, i, Amounts(rewards));
        assert rows[i] in Elems(rows);
        total := total + rewards[rows[i]].amount;
      }
      assert rows[..|rows|] == rows;
    }

    /** One program update per pooled reward; a program hit twice is read again each time. */
    method IncrementTotals(rows: seq<Id>)
      requires NoDup(rows) && Elems(rows) <= rewards.Keys
      modifies this`totals
      ensures totals == AddByProgram(old(totals), rewards, Elems(rows))
    {
      hide AddByProgram;
      AddNone(totals, rewards);
      for i := 0 to |rows|
        invariant totals == AddByProgram(old(totals), rewards, Elems(rows[..i]))
      {
        assert rows[i] in Elems(rows);
        AddOne(old(totals), rewards, rows, i);
        var row := rewards[rows[i]];
        if row.program in totals {
          totals := totals[row.program := totals[row.program] + row.amount];
        }
      }
      assert rows[..|rows|] == rows;
    }

    /** The updates of the rows of a pool, one after the other. */
    method UpdateRows(rows: seq<Id>, change: Change)
      requires NoDup(rows) && Elems(rows) <= rewards.Keys
      modifies this`rewards
      ensures rewards == Rewrite(old(rewards), Elems(rows), change)
    {
      hide Rewrite, RowAfter;
      RewriteNone(rewards, change);
      for i := 0 to |rows|
        invariant rewards == Rewrite(old(rewards), Elems(rows[..i]), change)
      {
        assert rows[i] in Elems(rows);
        PrefixOf(rows, i);
        RewriteOne(old(rewards), Elems(rows[..i]), rows[i], change);
        rewards := rewards[rows[i] := RowAfter(rewards[rows[i]], change)];
      }
      assert rows[..|rows|] == rows;
    }

    /** answer is how the provider will answer a request with a given key. */
    method MarkRewardPaid(user: Id, id: Id, answer: string -> Outcome) returns (result: PayResult)
      modifies this
      ensures View() == MarkPaid(old(View()), user, id, answer(KeyNow(old(View()), id)))
      ensures result == MarkPaidResult(old(View()), user, id, answer(KeyNow(old(View()), id)))
      ensures Sound(old(View())) ==> Sound(View())
    {
      if Sound(View()) { PaymentKeeps(View(), user, id, answer(KeyNow(View(), id))); }
      hide Sum, PoolKey, PayPool, ChangeOf, Sound;
      if id !in rewards { return Rejected(NotFound); }
      var reward := rewards[id];
      if !IsOwner(View(), user, reward.org) { return Rejected(NotOwner); }
      if reward.status != Approved { return Rejected(NotApproved); }
      if reward.retries >= MAX_PAYOUT_RETRIES { return Rejected(RetriesExhausted); }
      if HasSplits(View(), id) { return Rejected(SplitsConfigured); }
      if !Connected(View(), reward.researcher) { return Rejected(NotConnected); }
      assert id in Pool(View(), reward.researcher, reward.currency);
      result := SendPool(reward.researcher, reward.currency, answer);
    }

    method SendPool(researcher: Id, currency: string, answer: string -> Outcome) returns (result: PayResult)
      requires Connected(View(), researcher) && Pool(View(), researcher, currency) != {}
      modifies this
      ensures var outcome := answer(PoolKey(Pool(old(View()), researcher, currency)));
        View() == PayPool(old(View()), researcher, currency, outcome) &&
        result == match ChangeOf(old(View()), researcher, currency, outcome)
                        case Hold => BelowThreshold
                        case Settle(_) => PaidTogether(|Pool(old(View()), researcher, currency)|)
                        case Bounce => TransferFailed
    {
      hide Sum, PoolKey, KeyOfRows, AddByProgram, Pool, PayPool, ChangeOf, Rewrite, CreateTransfer;
      ghost var db := View();
      var rows := ListPool(researcher, currency);
      var pool := Elems(rows);
      PoolRows(db, researcher, currency);
      var total := PoolTotalOf(rows);
      KeyOfListing(rows);
      var key := KeyOfRows(rows);
      var outcome := answer(key);
      PayPoolIs(db, researcher, currency, outcome, pool, total);
      if total < profiles[researcher].threshold {
        UpdateRows(rows, Hold);
        return BelowThreshold;
      }
      var account := profiles[researcher].account.value;
      var request := Transfer(account, Round((total * 100) as real), currency, ForPool(pool));
      ledger := CreateTransfer(ledger, key, request, outcome);
      if outcome.Sent? {
        IncrementTotals(rows);
        UpdateRows(rows, Settle(key));
        return PaidTogether(|pool|);
      }
      UpdateRows(rows, Bounce);
      return TransferFailed;
    }

    method BatchPayRewards(user: Id, ids: seq<Id>, gateway: Gateway)
      returns (succeeded: seq<Id>, failed: seq<Id>, held: seq<Id>)
      modifies this
      ensures BatchState(View(), succeeded, failed, held) == Batch(old(View()), user, ids, gateway)
    {
      hide MarkPaid, MarkPaidResult, KeyNow;
      succeeded, failed, held := [], [], [];
      for i := 0 to |ids|
        invariant BatchState(View(), succeeded, failed, held) == Batch(old(View()), user, ids[..i], gateway)
      {
        assert ids[..i + 1][..i] == ids[..i];
        var result := MarkRewardPaid(user, ids[i], k => gateway(i, k));
        match result {
          case BelowThreshold => held := held + [ids[i]];
          case PaidTogether(_) => succeeded := succeeded + [ids[i]];
          case Rejected(_) => failed := failed + [ids[i]];
          case TransferFailed => failed := failed + [ids[i]];
        }
      }
      assert ids[..|ids|] == ids;
    }

    method ProposeSplitReward(user: Id, id: Id, shares: seq<Share>, newIds: seq<Id>) returns (ok: bool)
      requires WellMinted(View(), shares, newIds)
      modifies this
      ensures ok == (MayConfigure(old(View()), user, id, shares) && RowsAccepted(old(View()), shares))
      ensures View() == Configure(old(View()), user, id, shares, newIds)
    {
      hide RowsAccepted, NewSplits, SumsToHundred;
      if !SumsToHundred(shares) || id !in rewards || !IsOwner(View(), user, rewards[id].org) ||
         rewards[id].status == Paid {
        return false;
      }
      splits := splits - SplitsOf(View(), id);
      if !RowsAccepted(View(), shares) {
        assert !RowsAccepted(old(View()), shares) by { AcceptanceAfterDelete(old(View()), View(), shares); }
        return false;
      }
      assert RowsAccepted(old(View()), shares) by { AcceptanceAfterDelete(old(View()), View(), shares); }
      splits := splits + NewSplits(id, shares, newIds);
      minted := minted + Elems(newIds);
      return true;
    }

    method ListSplits(id: Id) returns (rows: seq<Id>)
      ensures NoDup(rows) && Elems(rows) == SplitsOf(View(), id)
    {
      rows := [];
      var todo := SplitsOf(View(), id);
      while todo != {}
        invariant NoDup(rows) && Elems(rows) !! todo
        invariant Elems(rows) + todo == SplitsOf(View(), id)
        decreases todo
      {
        var s :| s in todo;
        assert Elems(rows + [s]) == Elems(rows) + {s};
        assert forall i :: 0 <= i < |rows| ==> rows[i] in Elems(rows);
        rows, todo := rows + [s], todo - {s};
      }
    }

    /** One request; done are the splits handled before in this payout, which started from db. */
    method PaySplit(ghost db: Db, ghost done: set<Id>, s: Id, gateway: string -> Outcome)
      returns (researcher: Id, ok: bool)
      requires forall x :: x in done + {s} ==> x in db.splits && db.splits[x].reward in db.rewards
      requires s !in done && View() == AfterSplits(db, done, gateway)
      modifies this
      ensures View() == AfterSplits(db, done + {s}, gateway)
      ensures researcher == db.splits[s].researcher && ok == SplitSucceeds(db, s, gateway)
    {
      hide AfterSplits, SplitAmount, Cents;
      AfterOneMore(db, done, s, gateway);
      var split := splits[s];
      researcher := split.researcher;
      var amount := SplitAmount(rewards[split.reward].amount, split.share);
      if !Connected(View(), researcher) {
        splits := splits[s := split.(payout := Failed, amount := Some(amount))];
        return researcher, false;
      }
      var outcome := gateway(SplitKey(s));
      ledger := CreateTransfer(ledger, SplitKey(s),
        Transfer(profiles[researcher].account.value, Cents(amount), rewards[split.reward].currency,
                 ForSplit(split.reward, s)), outcome);
      if outcome.Sent? {
        splits := splits[s := split.(amount := Some(amount), payout := Succeeded, transfer := Some(SplitKey(s)))];
      } else {
        splits := splits[s := split.(payout := Failed, amount := Some(amount))];
      }
      ok := outcome.Sent?;
    }

    /** One request per split, each row updated before the next request goes out. */
    method PayEach(rows: seq<Id>, gateway: string -> Outcome) returns (succeeded: seq<Id>, failed: seq<Id>)
      requires NoDup(rows)
      requires forall s :: s in Elems(rows) ==> s in splits && splits[s].reward in rewards
      modifies this
      ensures View() == AfterSplits(old(View()), Elems(rows), gateway)
      ensures Elems(succeeded) == Recipients(old(View()), Elems(rows), gateway, true)
      ensures Elems(failed) == Recipients(old(View()), Elems(rows), gateway, false)
    {
      hide AfterSplits, SplitSucceeds, Recipients;
      succeeded, failed := [], [];
      ghost var db := View();
      AfterNone(db, gateway);
      NoRecipients(db, gateway);
      for i := 0 to |rows|
        invariant Elems(rows[..i]) <= Elems(rows)
        invariant View() == AfterSplits(db, Elems(rows[..i]), gateway)
        invariant Elems(succeeded) == Recipients(db, Elems(rows[..i]), gateway, true)
        invariant Elems(failed) == Recipients(db, Elems(rows[..i]), gateway, false)
      {
        PrefixOf(rows, i);
        OneMoreRecipient(db, Elems(rows[..i]), rows[i], gateway);
        var researcher, done := PaySplit(db, Elems(rows[..i]), rows[i], gateway);
        if done {
          assert Elems(succeeded + [researcher]) == Elems(succeeded) + {researcher};
          succeeded := succeeded + [researcher];
        } else {
          assert Elems(failed + [researcher]) == Elems(failed) + {researcher};
          failed := failed + [researcher];
        }
      }
      assert rows[..|rows|] == rows;
    }

    /** The reward is paid when nobody is left out. */
    method PaySplitReward(user: Id, id: Id, gateway: string -> Outcome)
      returns (ok: bool, succeeded: seq<Id>, failed: seq<Id>)
      modifies this
      ensures View() == PaySplits(old(View()), user, id, gateway)
      ensures ok == MayPaySplits(old(View()), user, id)
      ensures ok ==> Elems(succeeded) == Recipients(old(View()), SplitsOf(old(View()), id), gateway, true)
      ensures ok ==> Elems(failed) == Recipients(old(View()), SplitsOf(old(View()), id), gateway, false)
    {
      hide SplitTransfers, SplitRow, AfterSplits, SplitSucceeds, IsOwner, Recipients;
      succeeded, failed := [], [];
      ok := MayPaySplits(View(), user, id);
      if !ok { return; }
      var rows := ListSplits(id);
      ghost var db := View();
      AfterKeeps(db, SplitsOf(db, id), gateway);
      succeeded, failed := PayEach(rows, gateway);
      NobodyFailed(db, SplitsOf(db, id), gateway);
      if failed == [] {
        rewards := rewards[id := rewards[id].(status := Paid, payout := Succeeded)];
      }
    }
  }

  /** Who is paid, or not paid, by requests for the splits in done. */
  ghost function Recipients(db: Db, done: set<Id>, gateway: string -> Outcome, paid: bool): set<Id>
    requires forall s :: s in done ==> s in db.splits
  {
    set s | s in done && SplitSucceeds(db, s, gateway) == paid :: db.splits[s].researcher
  }

  lemma NoRecipients(db: Db, gateway: string -> Outcome)
    ensures Recipients(db, {}, gateway, true) == {} == Recipients(db, {}, gateway, false)
  {
  }

  lemma OneMoreRecipient(db: Db, done: set<Id>, s: Id, gateway: string -> Outcome)
    requires forall x :: x in done + {s} ==> x in db.splits
    ensures forall paid: bool ::
      Recipients(db, done + {s}, gateway, paid) ==
      Recipients(db, done, gateway, paid) +
      (if SplitSucceeds(db, s, gateway) == paid then {db.splits[s].researcher} else {})
  {
    hide SplitSucceeds;
    forall paid, x | x in Recipients(db, done, gateway, paid) ensures x in Recipients(db, done + {s}, gateway, paid) {
      var y :| y in done && SplitSucceeds(db, y, gateway) == paid && db.splits[y].researcher == x;
      assert y in done + {s};
    }
    assert s in done + {s};
  }

  lemma NobodyFailed(db: Db, done: set<Id>, gateway: string -> Outcome)
    requires forall s :: s in done ==> s in db.splits
    ensures Recipients(db, done, gateway, false) == {} <==> AllSucceed(db, done, gateway)
  {
    hide SplitSucceeds;
    forall s | s in done && !SplitSucceeds(db, s, gateway)
      ensures db.splits[s].researcher in Recipients(db, done, gateway, false)
    {
    }
  }

  /** The specification of a pool payment, by its cases. */
  lemma PayPoolIs(db: Db, researcher: Id, currency: string, outcome: Outcome, pool: set<Id>, total: int)
    requires Connected(db, researcher) && pool == Pool(db, researcher, currency)
    requires total == Sum(pool, Amounts(db.rewards))
    ensures var key, account := PoolKey(pool), db.profiles[researcher].account.value;
      var request := Transfer(account, Round((total * 100) as real), currency, ForPool(pool));
      var change := if total < db.profiles[researcher].threshold then Hold
                    else if outcome.Sent? then Settle(key) else Bounce;
      ChangeOf(db, researcher, currency, outcome) == change &&
      PayPool(db, researcher, currency, outcome) ==
      db.(rewards := Rewrite(db.rewards, pool, change),
          totals := if change.Settle? then AddByProgram(db.totals, db.rewards, pool) else db.totals,
          ledger := if change.Hold? then db.ledger else CreateTransfer(db.ledger, key, request, outcome))
  {
    hide Sum, PoolKey, Rewrite, AddByProgram, CreateTransfer;
  }

  lemma AfterKeeps(db: Db, done: set<Id>, gateway: string -> Outcome)
    requires forall s :: s in done ==> s in db.splits && db.splits[s].reward in db.rewards
    ensures AfterSplits(db, done, gateway).rewards == db.rewards
  {
  }

  lemma AfterNone(db: Db, gateway: string -> Outcome)
    ensures AfterSplits(db, {}, gateway) == db
  {
    hide SplitRow, SplitTransfer;
    assert SplitTransfers(db, {}, gateway) == map[];
  }

  lemma PrefixOf<T>(rows: seq<T>, i: nat)
    requires NoDup(rows) && i < |rows|
    ensures Elems(rows[..i + 1]) == Elems(rows[..i]) + {rows[i]} && rows[i] !in Elems(rows[..i])
    ensures Elems(rows[..i + 1]) <= Elems(rows)
  {
    assert rows[..i + 1] == rows[..i] + [rows[i]];
  }

  lemma AcceptanceAfterDelete(a: Db, b: Db, shares: seq<Share>)
    requires a.profiles == b.profiles
    ensures RowsAccepted(a, shares) == RowsAccepted(b, shares)
  {
    hide Stored;
  }

  lemma PoolRows(db: Db, researcher: Id, currency: string)
    ensures Pool(db, researcher, currency) <= db.rewards.Keys
  {
  }
}
