/** Concrete histories, step by step, that pay or count a reward twice, or misreport it. */
module RewardHistories {
  import opened Collections
  import opened PoolKeys
  import opened RewardModel
  import opened RewardInvariants
  import opened PoolPayments
  import opened RewardRuns
  import opened RewardTheorems
  import opened RewardLimits
  import opened RewardReopening
  import opened BatchOrder
  import opened BatchReport
  import opened RewardColumns
  import SplitRounding

  /** One organization "g" of owner "o" with program "p"; researcher "a" can be paid, researcher "b" cannot yet. */
  const START := Db(
    map["g" := "o"], {},
    map["s1" := Submission("p", "g", "a", true), "s2" := Submission("p", "g", "a", true)],
    map["a" := Profile(Some("acct_a"), true, 50), "b" := Profile(None, false, 50)],
    map[], map[], {}, map["p" := 0], map[])

  lemma StartIsInitial()
    ensures Initial(START) && Sound(START)
  {
    assert Initial(START);
    InitialIsGood(START);
  }

  /** The reward for a submission of START as it is first proposed. */
  function Fresh(submission: Id, amount: int): Reward
  {
    Reward(submission, "g", "p", "a", amount, "USD", Pending, None, NotStarted, None, false, 0)
  }

  function OwnerApproved(submission: Id, amount: int): Reward
  {
    Fresh(submission, amount).(status := Approved, approvedBy := Some("o"))
  }

  lemma NamesDiffer()
    ensures "r1" != "r2" && "s1" != "s2" && "a" != "b" && "x1" != "x2" && "y1" != "y2"
    ensures "x1" != "y1" && "x1" != "y2" && "x2" != "y1" && "x2" != "y2"
  {
    assert "r1"[1] != "r2"[1] && "s1"[1] != "s2"[1] && "x1"[1] != "x2"[1] && "y1"[1] != "y2"[1];
    assert "x1"[0] != "y1"[0] && "x2"[0] != "y2"[0];
  }

  /** A run put together from its first step and the rest. */
  lemma RunCons(db: Db, step: Step, rest: seq<Step>)
    requires Offered(db, step) && Legal(Apply(db, step), rest)
    ensures Legal(db, [step] + rest) && Run(db, [step] + rest) == Run(Apply(db, step), rest)
    ensures AnsweredRun([step] + rest) <==> AnsweredStep(step) && AnsweredRun(rest)
    ensures AcceptedRun(db, [step] + rest) <==> AcceptedStep(db, step) && AcceptedRun(Apply(db, step), rest)
  {
    hide Offered, Apply, AnsweredStep, AcceptedStep;
    assert ([step] + rest)[0] == step && ([step] + rest)[1..] == rest;
  }

  // ----- a lost reply

  /** START after r1 was proposed and approved and r2 proposed, 50 each. */
  const TWO_PROPOSED := START.(rewards := map["r1" := OwnerApproved("s1", 50), "r2" := Fresh("s2", 50)])

  lemma TwoProposed()
    ensures var one := Propose(START, "o", "s1", "r1", 50, "USD");
      one == START.(rewards := map["r1" := Fresh("s1", 50)]) &&
      Approve(one, "o", "r1") == START.(rewards := map["r1" := OwnerApproved("s1", 50)]) &&
      Propose(Approve(one, "o", "r1"), "o", "s2", "r2", 50, "USD") == TWO_PROPOSED
  {
    NamesDiffer();
  }

  lemma FirstPoolCharges()
    ensures Charges(TWO_PROPOSED, "o", "r1", Unanswered)
  {
    hide Sum;
    NamesDiffer();
    var pool := Pool(TWO_PROPOSED, "a", "USD");
    assert SplitsOf(TWO_PROPOSED, "r1") == {};
    assert pool == {"r1"};
    SumOfOne("r1", Amounts(TWO_PROPOSED.rewards));
  }

  lemma SumOfOne(x: Id, f: Id -> int)
    ensures Sum({x}, f) == f(x)
  {
    SumPick({x}, x, f);
    assert {x} - {x} == {};
  }

  lemma SumOfTwo(x: Id, y: Id, f: Id -> int)
    requires x != y
    ensures Sum({x, y}, f) == f(x) + f(y)
  {
    SumPick({x, y}, x, f);
    assert {x, y} - {x} == {y};
    SumOfOne(y, f);
  }

  const PROPOSALS := [
    DoPropose("o", "s1", "r1", 50, "USD"), DoApprove("o", "r1"), DoPropose("o", "s2", "r2", 50, "USD")]

  const LOST_REPLY := [DoPay("o", "r1", Unanswered), DoApprove("o", "r2"), DoPay("o", "r1", Sent)]

  lemma AfterProposals(rest: seq<Step>)
    requires Legal(TWO_PROPOSED, rest)
    ensures Legal(START, PROPOSALS + rest) && Run(START, PROPOSALS + rest) == Run(TWO_PROPOSED, rest)
    ensures AcceptedRun(START, PROPOSALS + rest) <==> AcceptedRun(TWO_PROPOSED, rest)
  {
    hide Sum, MarkPaid, Batch, PaySplits, Configure, Run, Legal, Propose, Approve;
    TwoProposed();
    NamesDiffer();
    var one := Propose(START, "o", "s1", "r1", 50, "USD");
    RunCons(Approve(one, "o", "r1"), PROPOSALS[2], rest);
    RunCons(one, PROPOSALS[1], [PROPOSALS[2]] + rest);
    RunCons(START, PROPOSALS[0], [PROPOSALS[1]] + ([PROPOSALS[2]] + rest));
    assert PROPOSALS + rest == [PROPOSALS[0]] + ([PROPOSALS[1]] + ([PROPOSALS[2]] + rest));
  }

  lemma LostReplyRuns()
    requires Charges(TWO_PROPOSED, "o", "r1", Unanswered)
    ensures Legal(TWO_PROPOSED, LOST_REPLY) && AcceptedRun(TWO_PROPOSED, LOST_REPLY)
    ensures Run(TWO_PROPOSED, LOST_REPLY) ==
            MarkPaid(Approve(MarkPaid(TWO_PROPOSED, "o", "r1", Unanswered), "o", "r2"), "o", "r1", Sent)
  {
    hide Sum, MarkPaid, Batch, PaySplits, Configure, Propose, Approve, Charges;
    NamesDiffer();
    var lost := MarkPaid(TWO_PROPOSED, "o", "r1", Unanswered);
    LostOther(TWO_PROPOSED, "o", "r1", "o", "r2");
    RunNone(MarkPaid(Approve(lost, "o", "r2"), "o", "r1", Sent));
    RunCons(Approve(lost, "o", "r2"), LOST_REPLY[2], []);
    RunCons(lost, LOST_REPLY[1], [LOST_REPLY[2]] + []);
    RunCons(TWO_PROPOSED, LOST_REPLY[0], [LOST_REPLY[1]] + ([LOST_REPLY[2]] + []));
    assert LOST_REPLY == [LOST_REPLY[0]] + ([LOST_REPLY[1]] + ([LOST_REPLY[2]] + []));
  }

  lemma TwoProposedSound()
    ensures Sound(TWO_PROPOSED)
  {
    hide Sound, Evolves, Preserves, PoolsStay, Propose, Approve, Batch, MarkPaid, PaySplits, Configure;
    StartIsInitial();
    TwoProposed();
    NamesDiffer();
    var one := Propose(START, "o", "s1", "r1", 50, "USD");
    QuietStep(START, PROPOSALS[0]);
    QuietStep(one, PROPOSALS[1]);
    QuietStep(Approve(one, "o", "r1"), PROPOSALS[2]);
  }

  /** A legal run, with an unanswered request, in which r1 ends up in two pool transfers. */
  lemma LostReplyHistory()
    ensures Initial(START) && Legal(START, PROPOSALS + LOST_REPLY) && AcceptedRun(START, PROPOSALS + LOST_REPLY)
    ensures !OncePooled(Run(START, PROPOSALS + LOST_REPLY))
  {
    hide Sum, MarkPaid, Approve, Sound, OncePooled, Charges, Legal, Run, AcceptedRun;
    StartIsInitial();
    TwoProposedSound();
    NamesDiffer();
    FirstPoolCharges();
    assert SplitsOf(TWO_PROPOSED, "r2") == {};
    LostReplyPaysTwice(TWO_PROPOSED, "o", "r1", "o", "r2");
    LostReplyRuns();
    AfterProposals(LOST_REPLY);
  }

  // ----- a rejected configuration

  /** START after r1 was proposed and approved for 100. */
  const APPROVED := START.(rewards := map["r1" := OwnerApproved("s1", 100)])

  const HALVES := [Share("a", 50.0), Share("b", 50.0)]
  const ONE_NAME_TWICE := [Share("a", 50.0), Share("a", 50.0)]

  function Answers(): string -> Outcome
  {
    (k: string) => Sent
  }

  const REJECTED_SPLITS := [
    DoPropose("o", "s1", "r1", 100, "USD"), DoApprove("o", "r1"),
    DoConfigure("o", "r1", HALVES, ["x1", "x2"]), DoPaySplits("o", "r1", Answers()),
    DoConfigure("o", "r1", ONE_NAME_TWICE, ["y1", "y2"]), DoPay("o", "r1", Sent)]

  lemma HalvesSum(shares: seq<Share>)
    requires |shares| == 2 && shares[0].percent == 50.0 && shares[1].percent == 50.0
    ensures SumsToHundred(shares) && Stored(50.0) == 50.0
  {
    assert shares[1..][1..] == [];
    assert TotalPercent(shares[1..]) == 50.0 + TotalPercent([]);
  }

  lemma HalvesAccepted()
    ensures WellMinted(APPROVED, HALVES, ["x1", "x2"])
    ensures MayConfigure(APPROVED, "o", "r1", HALVES) && RowsAccepted(APPROVED, HALVES)
  {
    hide Sum, SumsToHundred, Stored;
    NamesDiffer();
    HalvesSum(HALVES);
  }

  /** The configuration in halves is stored. */
  lemma HalvesStored()
    ensures WellMinted(APPROVED, HALVES, ["x1", "x2"])
    ensures var split := Configure(APPROVED, "o", "r1", HALVES, ["x1", "x2"]);
      split == APPROVED.(splits := split.splits, minted := {"x1", "x2"}) &&
      "x1" in split.splits && "x2" in split.splits &&
      split.splits["x1"] == Split("r1", "a", 50.0, None, NotStarted, None) &&
      split.splits["x2"] == Split("r1", "b", 50.0, None, NotStarted, None)
  {
    hide Sum, SumsToHundred, Stored, RowsAccepted, MayConfigure, NewSplits, SplitsOf, WellMinted;
    HalvesAccepted();
    HalvesSum(HALVES);
    var ids: seq<Id> := ["x1", "x2"];
    SplitRounding.ConfiguredRows(APPROVED, "o", "r1", HALVES, ids);
    assert ids[0] == "x1" && ids[1] == "x2" && Elems(ids) == {"x1", "x2"};
    MintedIds();
  }

  lemma MintedIds()
    requires WellMinted(APPROVED, HALVES, ["x1", "x2"])
    requires MayConfigure(APPROVED, "o", "r1", HALVES) && RowsAccepted(APPROVED, HALVES)
    ensures Configure(APPROVED, "o", "r1", HALVES, ["x1", "x2"]).minted == {"x1", "x2"}
  {
    hide Sum, SumsToHundred, Stored, RowsAccepted, MayConfigure, NewSplits, SplitsOf;
    var ids: seq<Id> := ["x1", "x2"];
    assert ids[0] == "x1" && ids[1] == "x2" && Elems(ids) == {"x1", "x2"};
  }

  /** Its payout reaches "a", whose transfer is made, and leaves the reward approved because of "b". */
  lemma HalfPaid(split: Db)
    requires split == APPROVED.(splits := split.splits, minted := {"x1", "x2"})
    requires "x1" in split.splits && split.splits["x1"] == Split("r1", "a", 50.0, None, NotStarted, None)
    requires "x2" in split.splits && split.splits["x2"] == Split("r1", "b", 50.0, None, NotStarted, None)
    requires forall s :: s in split.splits ==> split.splits[s].reward in split.rewards
    ensures var half := PaySplits(split, "o", "r1", Answers());
      half.rewards == split.rewards && half.profiles == split.profiles && half.owners == split.owners &&
      half.minted == split.minted && InSplit(half, SplitKey("x1"), "r1") &&
      half.ledger[SplitKey("x1")].account == "acct_a" && half.ledger[SplitKey("x1")].cents == 5000
  {
    hide Sum, SplitAmount, Cents, SplitTransfers, SplitRow;
    NamesDiffer();
    assert "x1" in SplitsOf(split, "r1") && "x2" in SplitsOf(split, "r1");
    assert !SplitSucceeds(split, "x2", Answers());
    FirstCharged(split);
  }

  lemma FirstCharged(split: Db)
    requires split == APPROVED.(splits := split.splits, minted := {"x1", "x2"})
    requires "x1" in split.splits && split.splits["x1"] == Split("r1", "a", 50.0, None, NotStarted, None)
    requires forall s :: s in split.splits ==> split.splits[s].reward in split.rewards
    ensures var made := SplitTransfers(split, SplitsOf(split, "r1"), Answers());
      SplitKey("x1") in made && made[SplitKey("x1")].purpose == ForSplit("r1", "x1") &&
      made[SplitKey("x1")].account == "acct_a" && made[SplitKey("x1")].cents == 5000
  {
    hide Sum, SplitAmount, Cents;
    HalfCents();
    assert "x1" in SplitsOf(split, "r1") && SplitReaches(split, "x1", Answers());
  }

  /** After the rejected configuration r1 has no splits and is a pool of its own. */
  lemma BarePoolCharges(half: Db)
    requires half.rewards == APPROVED.rewards && half.profiles == START.profiles && half.owners == START.owners
    requires half.minted == {"x1", "x2"}
    ensures WellMinted(half, ONE_NAME_TWICE, ["y1", "y2"])
    ensures MayConfigure(half, "o", "r1", ONE_NAME_TWICE) && !RowsAccepted(half, ONE_NAME_TWICE)
    ensures Charges(Configure(half, "o", "r1", ONE_NAME_TWICE, ["y1", "y2"]), "o", "r1", Sent)
  {
    hide Sum, Stored, SumsToHundred;
    NamesDiffer();
    HalvesSum(ONE_NAME_TWICE);
    assert ONE_NAME_TWICE[0].researcher == ONE_NAME_TWICE[1].researcher;
    BareCharges(half, Configure(half, "o", "r1", ONE_NAME_TWICE, ["y1", "y2"]), Sent);
  }

  lemma BareCharges(half: Db, bare: Db, outcome: Outcome)
    requires half.rewards == APPROVED.rewards && half.profiles == START.profiles && half.owners == START.owners
    requires bare == half.(splits := half.splits - SplitsOf(half, "r1")) && !outcome.Refused?
    ensures Charges(bare, "o", "r1", outcome)
  {
    hide Sum;
    assert SplitsOf(bare, "r1") == {};
    assert Pool(bare, "a", "USD") == {"r1"};
    SumOfOne("r1", Amounts(bare.rewards));
  }

  lemma ApprovedState()
    ensures Approve(Propose(START, "o", "s1", "r1", 100, "USD"), "o", "r1") == APPROVED && Sound(APPROVED)
    ensures Offered(START, REJECTED_SPLITS[0])
    ensures Offered(Propose(START, "o", "s1", "r1", 100, "USD"), REJECTED_SPLITS[1])
  {
    hide Sound, Evolves, Preserves, PoolsStay, Batch, MarkPaid, PaySplits, Configure;
    StartIsInitial();
    NamesDiffer();
    var one := Propose(START, "o", "s1", "r1", 100, "USD");
    assert one == START.(rewards := map["r1" := Fresh("s1", 100)]);
    QuietStep(START, REJECTED_SPLITS[0]);
    QuietStep(one, REJECTED_SPLITS[1]);
  }

  /** A legal run, all requests answered, in which r1 is settled by a split and then by a pool as well. */
  lemma RejectedSplitsHistory()
    ensures Initial(START) && Legal(START, REJECTED_SPLITS) && AnsweredRun(REJECTED_SPLITS)
    ensures !NeverBoth(Run(START, REJECTED_SPLITS))
  {
    hide Sum, Sound, Propose, Approve, Configure, PaySplits, MarkPaid, Batch, NeverBoth, InSplit, Charges,
      Evolves, WellMinted, MayConfigure, RowsAccepted, Legal, Run, SplitKey, START, REJECTED_SPLITS;
    var split := Configure(APPROVED, "o", "r1", HALVES, ["x1", "x2"]);
    var half := PaySplits(split, "o", "r1", Answers());
    StartIsInitial();
    ApprovedState();
    HalvesStored();
    ConfigureSound(APPROVED, "o", "r1", HALVES, ["x1", "x2"]);
    Minted(split);
    HalfPaid(split);
    SplitStep(split, "o", "r1", Answers());
    BarePoolCharges(half);
    assert "r1" in half.rewards;
    RejectedSplitsPayTwice(half, "o", "r1", ONE_NAME_TWICE, ["y1", "y2"], SplitKey("x1"));
    RejectedSplitsRun(split, half);
  }

  lemma RejectedSplitsRun(split: Db, half: Db)
    requires WellMinted(APPROVED, HALVES, ["x1", "x2"]) && WellMinted(half, ONE_NAME_TWICE, ["y1", "y2"])
    requires split == Configure(APPROVED, "o", "r1", HALVES, ["x1", "x2"])
    requires half == PaySplits(split, "o", "r1", Answers())
    ensures Legal(START, REJECTED_SPLITS) && AnsweredRun(REJECTED_SPLITS)
    ensures Run(START, REJECTED_SPLITS) ==
            MarkPaid(Configure(half, "o", "r1", ONE_NAME_TWICE, ["y1", "y2"]), "o", "r1", Sent)
  {
    hide Sum, Sound, Propose, Approve, Configure, PaySplits, MarkPaid, Batch, WellMinted, Legal, Run,
      AnsweredRun, AcceptedRun, AnswersAll, RowsAccepted, MayConfigure;
    ApprovedState();
    var s := REJECTED_SPLITS;
    var bare := Configure(half, "o", "r1", ONE_NAME_TWICE, ["y1", "y2"]);
    RunNone(MarkPaid(bare, "o", "r1", Sent));
    RunCons(bare, s[5], []);
    RunCons(half, s[4], [s[5]] + []);
    RunCons(split, s[3], [s[4]] + ([s[5]] + []));
    RunCons(APPROVED, s[2], [s[3]] + ([s[4]] + ([s[5]] + [])));
    var rest := [s[2]] + ([s[3]] + ([s[4]] + ([s[5]] + [])));
    RunCons(Propose(START, "o", "s1", "r1", 100, "USD"), s[1], rest);
    RunCons(START, s[0], [s[1]] + rest);
    assert s == [s[0]] + ([s[1]] + rest);
  }

  lemma RunNone(db: Db)
    ensures Legal(db, []) && Run(db, []) == db && AnsweredRun([]) && AcceptedRun(db, [])
  {
  }

  // ----- a lost reply, then splits

  const SPLIT_AFTER_LOSS := [
    DoPropose("o", "s1", "r1", 100, "USD"), DoApprove("o", "r1"), DoPay("o", "r1", Unanswered),
    DoConfigure("o", "r1", HALVES, ["x1", "x2"]), DoPaySplits("o", "r1", Answers())]

  lemma ApprovedCharges(outcome: Outcome)
    requires !outcome.Refused?
    ensures Charges(APPROVED, "o", "r1", outcome)
  {
    assert APPROVED.splits - SplitsOf(APPROVED, "r1") == map[];
    BareCharges(APPROVED, APPROVED, outcome);
  }

  lemma PayFrame(db: Db, user: Id, id: Id, outcome: Outcome)
    ensures var b := MarkPaid(db, user, id, outcome);
      b == db.(rewards := b.rewards, totals := b.totals, ledger := b.ledger)
    ensures id in db.rewards ==> id in MarkPaid(db, user, id, outcome).rewards &&
                                 MarkPaid(db, user, id, outcome).rewards[id].org == db.rewards[id].org
  {
    hide Sum, PoolKey, AddByProgram, CreateTransfer, PoolTransfer, ChangeOf, Pool;
  }

  /** As long as r1 is approved, the halves can be configured. */
  lemma HalvesAgain(db: Db, ids: seq<Id>)
    requires db.owners == START.owners && db.profiles == START.profiles
    requires "r1" in db.rewards && db.rewards["r1"].status == Approved && db.rewards["r1"].org == "g"
    requires |ids| == 2 && ids[0] != ids[1] && ids[0] !in db.minted && ids[1] !in db.minted
    ensures WellMinted(db, HALVES, ids)
    ensures MayConfigure(db, "o", "r1", HALVES) && RowsAccepted(db, HALVES) && Connected(db, "a")
  {
    hide Sum, SumsToHundred, Stored;
    NamesDiffer();
    HalvesSum(HALVES);
  }

  /** A legal run, one reply lost, in which r1 is charged as a pool and then by a split as well. */
  lemma SplitAfterLossHistory()
    ensures Initial(START) && Legal(START, SPLIT_AFTER_LOSS) && AcceptedRun(START, SPLIT_AFTER_LOSS)
    ensures !NeverBoth(Run(START, SPLIT_AFTER_LOSS))
  {
    hide Sum, Sound, Propose, Approve, Configure, PaySplits, MarkPaid, Batch, NeverBoth, Charges, Connected, WellMinted,
      MayConfigure, RowsAccepted, Legal, Run, SplitKey, START, SPLIT_AFTER_LOSS;
    var lost := MarkPaid(APPROVED, "o", "r1", Unanswered);
    var ids: seq<Id> := ["x1", "x2"];
    StartIsInitial();
    ApprovedState();
    ApprovedCharges(Unanswered);
    LostStays(APPROVED, "o", "r1");
    PayFrame(APPROVED, "o", "r1", Unanswered);
    ApprovedOrg();
    HalvesAgain(lost, ids);
    assert HALVES[0].researcher == "a";
    LostReplyThenSplitsPayTwice(APPROVED, "o", "r1", HALVES, ids, 0, Answers());
    SplitAfterLossRun(lost);
  }

  lemma ApprovedOrg()
    ensures "r1" in APPROVED.rewards && APPROVED.rewards["r1"].org == "g" && APPROVED.rewards["r1"].status == Approved
    ensures APPROVED.rewards["r1"].amount == 100
    ensures APPROVED.minted == {} && APPROVED.owners == START.owners && APPROVED.profiles == START.profiles
    ensures "x1" != "x2" && "y1" != "y2"
  {
    NamesDiffer();
  }

  lemma SplitAfterLossRun(lost: Db)
    requires lost == MarkPaid(APPROVED, "o", "r1", Unanswered) && WellMinted(lost, HALVES, ["x1", "x2"])
    requires RowsAccepted(lost, HALVES)
    ensures Legal(START, SPLIT_AFTER_LOSS) && AcceptedRun(START, SPLIT_AFTER_LOSS)
    ensures Run(START, SPLIT_AFTER_LOSS) ==
            PaySplits(Configure(lost, "o", "r1", HALVES, ["x1", "x2"]), "o", "r1", Answers())
  {
    hide Sum, Sound, Propose, Approve, Configure, PaySplits, MarkPaid, Batch, WellMinted, Legal, Run,
      AnsweredRun, AcceptedRun, AnswersAll, RowsAccepted, MayConfigure;
    ApprovedState();
    var s := SPLIT_AFTER_LOSS;
    var split := Configure(lost, "o", "r1", HALVES, ["x1", "x2"]);
    RunNone(PaySplits(split, "o", "r1", Answers()));
    RunCons(split, s[4], []);
    RunCons(lost, s[3], [s[4]] + []);
    RunCons(APPROVED, s[2], [s[3]] + ([s[4]] + []));
    var rest := [s[2]] + ([s[3]] + ([s[4]] + []));
    RunCons(Propose(START, "o", "s1", "r1", 100, "USD"), s[1], rest);
    RunCons(START, s[0], [s[1]] + rest);
    assert s == [s[0]] + ([s[1]] + rest);
  }

  // ----- splits configured anew after a partial payout

  const RECONFIGURED := [
    DoPropose("o", "s1", "r1", 100, "USD"), DoApprove("o", "r1"),
    DoConfigure("o", "r1", HALVES, ["x1", "x2"]), DoPaySplits("o", "r1", Answers()),
    DoConfigure("o", "r1", HALVES, ["y1", "y2"]), DoPaySplits("o", "r1", Answers())]

  /** A legal run, all requests answered and all configurations accepted, in which "a" is sent its half of r1 twice. */
  lemma ReconfiguredHistory()
    ensures Initial(START) && Legal(START, RECONFIGURED)
    ensures AnsweredRun(RECONFIGURED) && AcceptedRun(START, RECONFIGURED)
    ensures var end := Run(START, RECONFIGURED);
      InSplit(end, SplitKey("x1"), "r1") && InSplit(end, SplitKey("y1"), "r1") && SplitKey("x1") != SplitKey("y1") &&
      end.ledger[SplitKey("x1")].account == "acct_a" && end.ledger[SplitKey("y1")].account == "acct_a" &&
      end.ledger[SplitKey("x1")].cents == 5000 == end.ledger[SplitKey("y1")].cents &&
      "r1" in end.rewards && end.rewards["r1"].amount == 100
  {
    hide Sum, Sound, Propose, Approve, Configure, PaySplits, MarkPaid, Batch, WellMinted, Preserves, PoolsStay,
      MayConfigure, RowsAccepted, Legal, Run, SplitKey, START, RECONFIGURED, RowsEvolve, SplitsEvolve, TotalsEvolve,
      RoomEvolves, Connected;
    var split := Configure(APPROVED, "o", "r1", HALVES, ["x1", "x2"]);
    var half := PaySplits(split, "o", "r1", Answers());
    StartIsInitial();
    ApprovedState();
    HalvesStored();
    ConfigureSound(APPROVED, "o", "r1", HALVES, ["x1", "x2"]);
    Minted(split);
    HalfPaid(split);
    SplitStep(split, "o", "r1", Answers());
    ApprovedOrg();
    var ids: seq<Id> := ["y1", "y2"];
    NamesDiffer();
    HalvesAgain(half, ids);
    SecondHalf(half, ids, Configure(half, "o", "r1", HALVES, ids));
    HalvesAccepted();
    ReconfiguredRun(split, half);
    ReconfiguredAmount(half, ids);
    KeysApart({}, "x1", "y1");
  }

  lemma ReconfiguredAmount(half: Db, ids: seq<Id>)
    requires half.rewards == APPROVED.rewards && WellMinted(half, HALVES, ids)
    ensures var end := PaySplits(Configure(half, "o", "r1", HALVES, ids), "o", "r1", Answers());
      "r1" in end.rewards && end.rewards["r1"].amount == 100
  {
    hide PaySplits, Configure;
    ApprovedOrg();
    ConfigureFrame(half, "o", "r1", HALVES, ids);
    PayLeavesOther(Configure(half, "o", "r1", HALVES, ids), "o", "r1", Answers(), "r1");
  }

  lemma SecondHalf(half: Db, ids: seq<Id>, again: Db)
    requires Sound(half) && half.rewards == APPROVED.rewards && half.profiles == START.profiles
    requires half.owners == START.owners && SplitKey("x1") in half.ledger
    requires |ids| == 2 && ids[0] == "y1" && WellMinted(half, HALVES, ids)
    requires again == Configure(half, "o", "r1", HALVES, ids)
    ensures var end := PaySplits(again, "o", "r1", Answers());
      InSplit(end, SplitKey("y1"), "r1") && end.ledger[SplitKey("y1")].account == "acct_a" &&
      end.ledger[SplitKey("y1")].cents == 5000 &&
      SplitKey("x1") in end.ledger && end.ledger[SplitKey("x1")] == half.ledger[SplitKey("x1")]
  {
    hide Sum, Sound, Configure, PaySplits, RowsAccepted, Preserves, PoolsStay, RowsEvolve, SplitsEvolve,
      TotalsEvolve, RoomEvolves, SplitKey, EntrySound, SumsToHundred, Stored, SplitAmount, Cents;
    ApprovedOrg();
    HalvesAgain(half, ids);
    HalvesSum(HALVES);
    ConfigureSound(half, "o", "r1", HALVES, ids);
    ConfigureFrame(half, "o", "r1", HALVES, ids);
    ConfigureLeavesSplits(half, "o", "r1", HALVES, ids);
    assert HALVES[0].researcher == "a";
    ConfiguredReach(half, "o", "r1", HALVES, ids, 0, Answers());
    SplitRounding.ConfiguredRows(half, "o", "r1", HALVES, ids);
    MintedKeyIsNew(half, "y1");
    SplitReached(again, "o", "r1", Answers(), "y1");
    SplitMoneyGoesTo(again, "o", "r1", Answers(), SplitKey("y1"));
    SplitStep(again, "o", "r1", Answers());
    KeysApart({}, PaySplits(again, "o", "r1", Answers()).ledger[SplitKey("y1")].purpose.split, "y1");
    assert again.profiles["a"].account == Some("acct_a");
    assert Cents(SplitAmount(100, 50.0)) == 5000 by { HalfCents(); }
  }

  lemma HalfCents()
    ensures Cents(SplitAmount(100, 50.0)) == 5000
  {
    assert 50.0 / 100.0 == 0.5;
  }

  lemma ReconfiguredRun(split: Db, half: Db)
    requires WellMinted(APPROVED, HALVES, ["x1", "x2"]) && WellMinted(half, HALVES, ["y1", "y2"])
    requires split == Configure(APPROVED, "o", "r1", HALVES, ["x1", "x2"])
    requires half == PaySplits(split, "o", "r1", Answers())
    requires RowsAccepted(APPROVED, HALVES) && RowsAccepted(half, HALVES)
    ensures Legal(START, RECONFIGURED) && AnsweredRun(RECONFIGURED) && AcceptedRun(START, RECONFIGURED)
    ensures Run(START, RECONFIGURED) ==
            PaySplits(Configure(half, "o", "r1", HALVES, ["y1", "y2"]), "o", "r1", Answers())
  {
    hide Sum, Sound, Propose, Approve, Configure, PaySplits, MarkPaid, Batch, WellMinted, Legal, Run,
      AnsweredRun, AcceptedRun, AnswersAll, RowsAccepted, MayConfigure;
    ApprovedState();
    var s := RECONFIGURED;
    var again := Configure(half, "o", "r1", HALVES, ["y1", "y2"]);
    RunNone(PaySplits(again, "o", "r1", Answers()));
    RunCons(again, s[5], []);
    RunCons(half, s[4], [s[5]] + []);
    RunCons(split, s[3], [s[4]] + ([s[5]] + []));
    RunCons(APPROVED, s[2], [s[3]] + ([s[4]] + ([s[5]] + [])));
    var rest := [s[2]] + ([s[3]] + ([s[4]] + ([s[5]] + [])));
    RunCons(Propose(START, "o", "s1", "r1", 100, "USD"), s[1], rest);
    RunCons(START, s[0], [s[1]] + rest);
    assert s == [s[0]] + ([s[1]] + rest);
  }

  // ----- a second approval

  const PAID_ONCE := [DoPropose("o", "s1", "r1", 100, "USD"), DoApprove("o", "r1"), DoPay("o", "r1", Sent)]

  lemma PaidOnceRun()
    ensures Legal(START, PAID_ONCE) && Run(START, PAID_ONCE) == MarkPaid(APPROVED, "o", "r1", Sent)
  {
    hide Sum, Sound, Propose, Approve, Configure, PaySplits, MarkPaid, Batch, Legal, Run, AnsweredRun, AcceptedRun;
    ApprovedState();
    var s := PAID_ONCE;
    RunNone(MarkPaid(APPROVED, "o", "r1", Sent));
    RunCons(APPROVED, s[2], []);
    RunCons(Propose(START, "o", "s1", "r1", 100, "USD"), s[1], [s[2]] + []);
    RunCons(START, s[0], [s[1]] + ([s[2]] + []));
    assert s == [s[0]] + ([s[1]] + ([s[2]] + []));
  }

  /** r1 is paid, and once approved again it is a pool of its own that can be paid. */
  lemma PaidAndReopened()
    ensures var paid := MarkPaid(APPROVED, "o", "r1", Sent);
      "r1" in paid.rewards && paid.rewards["r1"].transfer.Some? && PoolPaid(paid) == {"r1"} &&
      paid.rewards["r1"].program == "p" && paid.rewards["r1"].amount == 100 &&
      Charges(Approve(paid, "o", "r1"), "o", "r1", Sent)
  {
    hide Sum, PoolKey, AddByProgram, CreateTransfer, PoolTransfer;
    ApprovedCharges(Sent);
    TriggerPayable(APPROVED, "o", "r1");
    var open := Approve(MarkPaid(APPROVED, "o", "r1", Sent), "o", "r1");
    assert SplitsOf(open, "r1") == {};
    assert Pool(open, "a", "USD") == {"r1"};
    SumOfOne("r1", Amounts(open.rewards));
  }

  /** Paying what was settled already settles nothing more. */
  lemma PaidTwice(paid: Db)
    requires "r1" in paid.rewards && PoolPaid(paid) == {"r1"} == paid.rewards.Keys
    requires paid.rewards["r1"].program == "p" && paid.rewards["r1"].amount == 100
    requires Charges(Approve(paid, "o", "r1"), "o", "r1", Sent)
    ensures SettledIn(paid, "p") == 100 == SettledIn(MarkPaid(Approve(paid, "o", "r1"), "o", "r1", Sent), "p")
  {
    hide Sum, PoolKey, AddByProgram, CreateTransfer, PoolTransfer, PoolPaid, PayPool, Connected, ChangeOf;
    var open := Approve(paid, "o", "r1");
    var again := MarkPaid(open, "o", "r1", Sent);
    ReopenedPool(paid, open);
    TriggerPayable(open, "o", "r1");
    PaySettles(open, open.rewards["r1"].researcher, open.rewards["r1"].currency, Sent);
    assert PoolPaid(again) == {"r1"};
    OneSettled(paid);
    OneSettled(again);
  }

  lemma ReopenedPool(paid: Db, open: Db)
    requires PoolPaid(paid) == {"r1"} == paid.rewards.Keys && open == Approve(paid, "o", "r1")
    ensures PoolPaid(open) == {"r1"} == open.rewards.Keys
    ensures forall r, c :: Pool(open, r, c) <= {"r1"}
  {
  }

  lemma OneSettled(db: Db)
    requires PoolPaid(db) == {"r1"} && "r1" in db.rewards
    requires db.rewards["r1"].program == "p" && db.rewards["r1"].amount == 100
    ensures SettledIn(db, "p") == 100
  {
    hide Sum, PoolPaid;
    var r: Id, p: Id := "r1", "p";
    assert Programs(db.rewards)(r) == p && Amounts(db.rewards)(r) == 100;
    assert Part(PoolPaid(db), Programs(db.rewards), p) == {r};
    SumOfOne(r, Amounts(db.rewards));
  }

  lemma OneRow(paid: Db)
    requires paid == MarkPaid(APPROVED, "o", "r1", Sent)
    ensures paid.rewards.Keys == {"r1"}
  {
    hide Sum, PoolKey, AddByProgram, CreateTransfer, PoolTransfer, ChangeOf;
  }

  /** r1 is paid, approved again, and paid again: the program's total says 200 where rewards of 100 were settled. */
  lemma ReapprovedHistory()
    ensures Initial(START) && Legal(START, PAID_ONCE)
    ensures var paid := Run(START, PAID_ONCE);
      var again := MarkPaid(Approve(paid, "o", "r1"), "o", "r1", Sent);
      "p" in paid.totals && "p" in again.totals && paid.totals["p"] == 100 == SettledIn(paid, "p") &&
      again.totals["p"] == 200 && SettledIn(again, "p") == 100 && !Sound(Approve(paid, "o", "r1"))
  {
    hide Sum, Sound, MarkPaid, Approve, Charges, SettledIn, Legal, Run, IsOwner, Evolves, Preserves, Whole, Pooled,
      SplitsKept, PoolPaid;
    StartIsInitial();
    ApprovedState();
    PaidOnceRun();
    PaidAndReopened();
    PayStep(APPROVED, "o", "r1", Sent);
    ProgramConservation(START, PAID_ONCE, "p");
    var paid := MarkPaid(APPROVED, "o", "r1", Sent);
    ReapprovedCountsTwice(paid, "o", "r1");
    OneRow(paid);
    PaidTwice(paid);
    PayFrame(APPROVED, "o", "r1", Sent);
    OwnerOfR1(paid);
    ApproveSoundIff(paid, "o", "r1");
  }

  lemma OwnerOfR1(db: Db)
    requires db.owners == START.owners && "r1" in db.rewards && db.rewards["r1"].org == "g"
    ensures IsOwner(db, "o", db.rewards["r1"].org)
  {
  }

  // ----- a batch that reports a paid reward as failed

  /** START with r1 and r2 approved for 50 each. */
  const TWO_APPROVED := START.(rewards := map["r1" := OwnerApproved("s1", 50), "r2" := OwnerApproved("s2", 50)])

  lemma TwoApproved()
    ensures Legal(START, PROPOSALS + [DoApprove("o", "r2")])
    ensures Run(START, PROPOSALS + [DoApprove("o", "r2")]) == TWO_APPROVED
  {
    NamesDiffer();
    assert Approve(TWO_PROPOSED, "o", "r2") == TWO_APPROVED;
    RunNone(TWO_APPROVED);
    RunCons(TWO_PROPOSED, DoApprove("o", "r2"), []);
    assert [DoApprove("o", "r2")] + [] == [DoApprove("o", "r2")];
    AfterProposals([DoApprove("o", "r2")]);
  }

  lemma BothPooled()
    ensures Settles(TWO_APPROVED, "o", "r1", Sent, "r2")
  {
    hide Sum, PoolKey;
    NamesDiffer();
    assert SplitsOf(TWO_APPROVED, "r1") == {} == SplitsOf(TWO_APPROVED, "r2");
    var pool: set<Id> := {"r1", "r2"};
    assert Pool(TWO_APPROVED, "a", "USD") == pool;
    SumOfTwo("r1", "r2", Amounts(TWO_APPROVED.rewards));
    assert Amounts(TWO_APPROVED.rewards)("r1") == 50 == Amounts(TWO_APPROVED.rewards)("r2");
  }

  const BOTH: seq<Id> := ["r1", "r2"]

  /** A batch of r1 and r2, every request sent, pays both with the first request and reports r2 as failed. */
  lemma PaidReportedFailed()
    ensures Legal(START, PROPOSALS + [DoApprove("o", "r2")])
    ensures var b := Batch(Run(START, PROPOSALS + [DoApprove("o", "r2")]), "o", BOTH, ByKey(Answers()));
      "r2" in b.failed && "r2" in b.db.rewards && b.db.rewards["r2"].status == Paid
  {
    hide Batch, Settles, KeyNow, Legal, Run;
    NamesDiffer();
    TwoApproved();
    BothPooled();
    assert BOTH[..0] == [];
    BatchOfNone(TWO_APPROVED, "o", ByKey(Answers()));
    assert SettlesAt(TWO_APPROVED, "o", BOTH, ByKey(Answers()), 0, "r2");
    FailedYetPaidIff(TWO_APPROVED, "o", BOTH, ByKey(Answers()), 1);
  }

  // ----- a held mark that stays

  /** START with r1 approved for 20, which is below the threshold. */
  const SMALL := START.(rewards := map["r1" := OwnerApproved("s1", 20)])

  const WHOLE := [Share("a", 100.0)]

  const HELD_FOR_GOOD := [
    DoPropose("o", "s1", "r1", 20, "USD"), DoApprove("o", "r1"), DoPay("o", "r1", Sent),
    DoConfigure("o", "r1", WHOLE, ["x1"]), DoPaySplits("o", "r1", Answers())]

  lemma SmallState()
    ensures Approve(Propose(START, "o", "s1", "r1", 20, "USD"), "o", "r1") == SMALL && Sound(SMALL)
    ensures Offered(START, HELD_FOR_GOOD[0])
    ensures Offered(Propose(START, "o", "s1", "r1", 20, "USD"), HELD_FOR_GOOD[1])
  {
    hide Sound, Evolves, Preserves, PoolsStay, Batch, MarkPaid, PaySplits, Configure;
    StartIsInitial();
    NamesDiffer();
    var one := Propose(START, "o", "s1", "r1", 20, "USD");
    assert one == START.(rewards := map["r1" := Fresh("s1", 20)]);
    QuietStep(START, HELD_FOR_GOOD[0]);
    QuietStep(one, HELD_FOR_GOOD[1]);
  }

  lemma SmallIsHeld()
    ensures var held := MarkPaid(SMALL, "o", "r1", Sent);
      held == SMALL.(rewards := held.rewards) && "r1" in held.rewards &&
      held.rewards["r1"] == OwnerApproved("s1", 20).(held := true)
  {
    hide Sum, PoolKey, MarkPaid, MarkPaidResult;
    var r: Id := "r1";
    assert Companions(SMALL, r) == {r};
    SumOfOne(r, (x: Id) => if x in SMALL.rewards then SMALL.rewards[x].amount else 0);
    ResultIs(SMALL, "o", r, Sent);
    MoneyEffect(SMALL, "o", r, Sent);
    RowEffect(SMALL, "o", r, Sent, r);
  }

  lemma OneShare()
    ensures SplitRounding.Total([100.0]) == 100.0
  {
    assert [100.0][1..] == [];
  }

  lemma WholeStored(held: Db, ids: seq<Id>)
    requires held == SMALL.(rewards := held.rewards) && "r1" in held.rewards && |ids| == 1
    requires held.rewards["r1"] == OwnerApproved("s1", 20).(held := true)
    ensures WellMinted(held, WHOLE, ids)
    ensures var split := Configure(held, "o", "r1", WHOLE, ids);
      split.rewards == held.rewards && split.owners == held.owners && split.profiles == held.profiles &&
      ids[0] in split.splits && split.splits[ids[0]].reward == "r1" &&
      forall s :: s in split.splits ==>
        s == ids[0] && split.splits[s].reward == "r1" && split.splits[s].researcher == "a"
  {
    hide Configure;
    NamesDiffer();
    assert SplitRounding.Percents(WHOLE) == [100.0];
    assert SplitRounding.Total([100.0]) == 100.0 by { OneShare(); }
    assert MaySplit(held, "o", "r1", WHOLE) && TableTakes(held, WHOLE);
    ConfigureEffect(held, "o", "r1", WHOLE, ids);
  }

  /** A legal run, all answered and accepted: r1 was held, is then paid by its split, and is marked as held for good. */
  lemma HeldForGood()
    ensures Initial(START) && Legal(START, HELD_FOR_GOOD)
    ensures var end := Run(START, HELD_FOR_GOOD);
      "r1" in end.rewards && end.rewards["r1"].status == Paid && end.rewards["r1"].held
  {
    hide Sum, Sound, Propose, Approve, Configure, PaySplits, MarkPaid, Batch, WellMinted, Legal, Run, START,
      AnsweredRun, AcceptedRun, AnswersAll;
    var ids: seq<Id> := ["x1"];
    var held := MarkPaid(SMALL, "o", "r1", Sent);
    var split := Configure(held, "o", "r1", WHOLE, ids);
    var end := PaySplits(split, "o", "r1", Answers());
    StartIsInitial();
    SmallState();
    SmallIsHeld();
    WholeStored(held, ids);
    RewardEffect(split, "o", "r1", Answers());
    SmallPays(split, ids[0]);
    var s := HELD_FOR_GOOD;
    RunNone(end);
    RunCons(split, s[4], []);
    RunCons(held, s[3], [s[4]] + []);
    RunCons(SMALL, s[2], [s[3]] + ([s[4]] + []));
    var rest := [s[2]] + ([s[3]] + ([s[4]] + []));
    RunCons(Propose(START, "o", "s1", "r1", 20, "USD"), s[1], rest);
    RunCons(START, s[0], [s[1]] + rest);
    assert s == [s[0]] + ([s[1]] + rest);
  }

  lemma SmallPays(split: Db, x: Id)
    requires split.owners == START.owners && split.profiles == START.profiles && "r1" in split.rewards
    requires split.rewards["r1"].status == Approved && split.rewards["r1"].org == "g"
    requires x in split.splits && split.splits[x].reward == "r1"
    requires forall s :: s in split.splits ==> split.splits[s].reward == "r1" && split.splits[s].researcher == "a"
    ensures MayPayOut(split, "o", "r1")
    ensures forall s :: s in split.splits && split.splits[s].reward == "r1" ==>
      RewardColumns.Answered(split, s, Answers())
  {
  }
}
