/** How far the rounded split amounts of a reward can be from its amount. */
module SplitRounding {
  import opened Collections
  import opened PoolKeys
  import opened RewardModel
  import opened RewardTheorems

  lemma RoundNear(x: real)
    ensures -0.5 <= Round(x) as real - x <= 0.5
  {
  }

  /** A split is charged in cents exactly 100 times its rounded amount. */
  lemma CentsExact(amount: int)
    ensures Cents(amount) == 100 * amount
  {
  }

  function AmountsOf(amount: int, shares: seq<real>): int
  {
    if shares == [] then 0 else SplitAmount(amount, shares[0]) + AmountsOf(amount, shares[1..])
  }

  function Total(shares: seq<real>): real
  {
    if shares == [] then 0.0 else shares[0] + Total(shares[1..])
  }

  /** Half a unit for each of n shares. */
  function Halves(n: nat): real
  {
    n as real / 2.0
  }

  /** The worth of a percentage of a, before rounding. */
  function Portion(a: real, percent: real): real
  {
    a * (percent / 100.0)
  }

  /** What the shares are worth before rounding. */
  function Exact(amount: int, shares: seq<real>): real
  {
    Portion(amount as real, Total(shares))
  }

  /** Each share adds at most half a unit of rounding. */
  lemma {:induction false} RoundedNearExact(amount: int, shares: seq<real>)
    ensures -Halves(|shares|) <= AmountsOf(amount, shares) as real - Exact(amount, shares) <= Halves(|shares|)
  {
    if shares == [] {
    } else {
      RoundedNearExact(amount, shares[1..]);
      RoundNear(Portion(amount as real, shares[0]));
      PortionAdds(amount as real, shares[0], Total(shares[1..]));
    }
  }

  lemma PortionAdds(a: real, x: real, y: real)
    ensures Portion(a, x + y) == Portion(a, x) + Portion(a, y)
  {
    assert (x + y) / 100.0 == x / 100.0 + y / 100.0;
  }

  lemma PortionWhole(a: real)
    ensures Portion(a, 100.0) == a
  {
  }

  lemma PortionMonotone(a: real, x: real, tol: real)
    requires a >= 0.0 && -tol <= x <= tol
    ensures -Portion(a, tol) <= Portion(a, x) <= Portion(a, tol)
  {
    Scale(a, x / 100.0, tol / 100.0);
  }

  lemma Scale(a: real, x: real, y: real)
    requires a >= 0.0 && -y <= x <= y
    ensures -(a * y) <= a * x <= a * y
  {
    assert a * (y - x) >= 0.0 && a * (y + x) >= 0.0;
  }

  /** If the shares sum to 100 within tol, the rounded amounts sum to the amount within n/2 + amount*tol/100. */
  lemma WithinTolerance(amount: nat, shares: seq<real>, tol: real)
    requires -tol <= Total(shares) - 100.0 <= tol
    ensures var slack := Halves(|shares|) + Portion(amount as real, tol);
      -slack <= (AmountsOf(amount, shares) - amount) as real <= slack
  {
    hide AmountsOf, Total, Halves, Portion;
    var a, off := amount as real, Total(shares) - 100.0;
    RoundedNearExact(amount, shares);
    PortionAdds(a, 100.0, off);
    PortionWhole(a);
    PortionMonotone(a, off, tol);
  }

  function Percents(shares: seq<Share>): seq<real>
  {
    seq(|shares|, i requires 0 <= i < |shares| => shares[i].percent)
  }

  function StoredPercents(shares: seq<Share>): seq<real>
  {
    seq(|shares|, i requires 0 <= i < |shares| => Stored(shares[i].percent))
  }

  lemma {:induction false} PercentsTotal(shares: seq<Share>)
    ensures Total(Percents(shares)) == TotalPercent(shares)
  {
    if shares == [] {
    } else {
      PercentsTotal(shares[1..]);
      assert Percents(shares)[1..] == Percents(shares[1..]);
    }
  }

  /** Storing a share with two decimals moves it by at most 0.005. */
  lemma {:induction false} StoredTotal(shares: seq<Share>)
    ensures var drift := |shares| as real / 200.0;
      -drift <= Total(StoredPercents(shares)) - TotalPercent(shares) <= drift
  {
    if shares == [] {
    } else {
      StoredTotal(shares[1..]);
      assert StoredPercents(shares)[1..] == StoredPercents(shares[1..]);
      RoundNear(shares[0].percent * 100.0);
    }
  }

  /** Computed from the accepted shares as given, the amounts sum to within n/2 + amount/10000. */
  lemma AcceptedSharesBound(amount: nat, shares: seq<Share>)
    requires SumsToHundred(shares)
    ensures var slack := |shares| as real / 2.0 + amount as real / 10000.0;
      -slack <= (AmountsOf(amount, Percents(shares)) - amount) as real <= slack
  {
    PercentsTotal(shares);
    WithinTolerance(amount, Percents(shares), 0.01);
  }

  lemma {:induction false} SumOverIds(ids: seq<Id>, shares: seq<real>, amount: int, worth: Id -> int)
    requires |ids| == |shares| && NoDup(ids)
    requires forall i :: 0 <= i < |ids| ==> worth(ids[i]) == SplitAmount(amount, shares[i])
    ensures Sum(Elems(ids), worth) == AmountsOf(amount, shares)
    decreases |ids|
  {
    if ids == [] {
    } else {
      SumOverIds(ids[1..], shares[1..], amount, worth);
      SumPick(Elems(ids), ids[0], worth);
      assert Elems(ids) - {ids[0]} == Elems(ids[1..]);
    }
  }

  lemma NewSplitRows(id: Id, shares: seq<Share>, newIds: seq<Id>)
    requires |newIds| == |shares|
    requires forall i, j :: 0 <= i < j < |newIds| ==> newIds[i] != newIds[j]
    ensures var rows := NewSplits(id, shares, newIds);
      rows.Keys == Elems(newIds) && forall i :: 0 <= i < |newIds| ==>
        newIds[i] in rows &&
        rows[newIds[i]] == Split(id, shares[i].researcher, Stored(shares[i].percent), None, NotStarted, None)
    ensures forall s :: s in NewSplits(id, shares, newIds) ==> NewSplits(id, shares, newIds)[s].reward == id
  {
    hide Stored;
    var rows := NewSplits(id, shares, newIds);
    assert forall i :: 0 <= i < |newIds| ==> newIds[i] in rows;
  }

  lemma ConfiguredRows(db: Db, user: Id, id: Id, shares: seq<Share>, newIds: seq<Id>)
    requires WellMinted(db, shares, newIds) && MayConfigure(db, user, id, shares) && RowsAccepted(db, shares)
    ensures var b := Configure(db, user, id, shares, newIds);
      SplitsOf(b, id) == Elems(newIds) &&
      forall i :: 0 <= i < |newIds| ==>
        newIds[i] in b.splits &&
        b.splits[newIds[i]] == Split(id, shares[i].researcher, Stored(shares[i].percent), None, NotStarted, None)
  {
    hide RowsAccepted, Stored, SumsToHundred, IsOwner, NewSplits, SplitsOf;
    NewSplitRows(id, shares, newIds);
    RowsReplace(db, Configure(db, user, id, shares, newIds), id, NewSplits(id, shares, newIds));
  }

  lemma RowsReplace(a: Db, b: Db, id: Id, rows: map<Id, Split>)
    requires b.splits == (a.splits - SplitsOf(a, id)) + rows && forall s :: s in rows ==> rows[s].reward == id
    ensures SplitsOf(b, id) == rows.Keys
  {
  }

  /** The stored splits of a configuration are worth what their stored percentages come to. */
  lemma ConfiguredWorth(db: Db, user: Id, id: Id, shares: seq<Share>, newIds: seq<Id>)
    requires WellMinted(db, shares, newIds) && MayConfigure(db, user, id, shares) && RowsAccepted(db, shares)
    ensures var b, amount := Configure(db, user, id, shares, newIds), db.rewards[id].amount;
      Sum(SplitsOf(b, id), WorthOf(b.splits, amount)) == AmountsOf(amount, StoredPercents(shares))
  {
    hide Sum, RowsAccepted, SplitAmount, Stored, SumsToHundred, Configure;
    var b, amount := Configure(db, user, id, shares, newIds), db.rewards[id].amount;
    ConfiguredRows(db, user, id, shares, newIds);
    SumOverIds(newIds, StoredPercents(shares), amount, WorthOf(b.splits, amount));
  }

  lemma ConfiguredTotal(shares: seq<Share>)
    requires SumsToHundred(shares)
    ensures -0.01 <= TotalPercent(shares) - 100.0 <= 0.01
  {
  }

  /**
   * The splits that a configuration really stores are worth the reward's amount up to
   * n/2 + amount/10000 + amount*n/20000: rounding of amounts, tolerance of the check, and two-decimal shares.
   */
  lemma ConfiguredSplitsBound(db: Db, user: Id, id: Id, shares: seq<Share>, newIds: seq<Id>)
    requires WellMinted(db, shares, newIds) && MayConfigure(db, user, id, shares) && RowsAccepted(db, shares)
    requires db.rewards[id].amount >= 0
    ensures var b := Configure(db, user, id, shares, newIds);
      var a, n := db.rewards[id].amount as real, |shares| as real;
      var slack := n / 2.0 + a * ((0.01 + n / 200.0) / 100.0);
      var worth := Sum(SplitsOf(b, id), WorthOf(b.splits, db.rewards[id].amount));
      -slack <= (worth - db.rewards[id].amount) as real <= slack
  {
    hide Sum, RowsAccepted, SplitAmount, Stored, SumsToHundred, Configure;
    var amount, stored := db.rewards[id].amount, StoredPercents(shares);
    ConfiguredWorth(db, user, id, shares, newIds);
    StoredTotal(shares);
    ConfiguredTotal(shares);
    WithinTolerance(amount, stored, 0.01 + |shares| as real / 200.0);
  }

  // ----- when the stored shares still meet the narrower bound

  /** The amounts computed from these percentages are within n/2 + amount/10000 of the amount. */
  predicate Close(amount: nat, percents: seq<real>)
  {
    var slack := |percents| as real / 2.0 + amount as real / 10000.0;
    -slack <= (AmountsOf(amount, percents) - amount) as real <= slack
  }

  lemma {:induction false} StoredCents(shares: seq<Share>) returns (cents: int)
    ensures Total(StoredPercents(shares)) == cents as real / 100.0
  {
    cents := 0;
    if shares == [] {
    } else {
      var rest := StoredCents(shares[1..]);
      assert StoredPercents(shares)[1..] == StoredPercents(shares[1..]);
      cents := Round(shares[0].percent * 100.0) + rest;
    }
  }

  /** A total that is off by two hundredths of a percent or more is too far for a large enough amount. */
  lemma FarOff(percents: seq<real>)
    requires Total(percents) >= 100.02 || Total(percents) <= 99.98
    ensures !Close(10000 * (|percents| + 1), percents)
  {
    hide AmountsOf, Total, Portion;
    var n := |percents|;
    var amount: nat := 10000 * (n + 1);
    var a, off := amount as real, Total(percents) - 100.0;
    RoundedNearExact(amount, percents);
    PortionAdds(a, 100.0, off);
    PortionWhole(a);
    SmallPortion(n);
    if off >= 0.02 {
      PortionAdds(a, 0.02, off - 0.02);
      PortionSign(a, off - 0.02);
    } else {
      PortionAdds(a, -0.02, off + 0.02);
      PortionSign(a, off + 0.02);
    }
  }

  lemma SmallPortion(n: nat)
    ensures Portion((10000 * (n + 1)) as real, 0.02) == 2.0 * (n + 1) as real
    ensures Portion((10000 * (n + 1)) as real, -0.02) == -2.0 * (n + 1) as real
  {
  }

  lemma PortionSign(a: real, x: real)
    requires a >= 0.0
    ensures x >= 0.0 ==> Portion(a, x) >= 0.0
    ensures x <= 0.0 ==> Portion(a, x) <= 0.0
  {
  }

  /**
   * What the stored shares of a configuration charge is within n/2 + amount/10000 of every amount exactly when the
   * shares, each rounded to two decimals, still sum to 100 within the tolerance of the check.
   */
  lemma StoredCloseIff(shares: seq<Share>)
    ensures (forall amount: nat :: Close(amount, StoredPercents(shares))) <==>
            -0.01 <= Total(StoredPercents(shares)) - 100.0 <= 0.01
  {
    hide Close, AmountsOf, Total, Portion;
    var stored := StoredPercents(shares);
    var cents := StoredCents(shares);
    if -0.01 <= Total(stored) - 100.0 <= 0.01 {
      forall amount: nat ensures Close(amount, stored) { CloseWithin(amount, stored); }
    } else {
      assert cents >= 10002 || cents <= 9998;
      FarOff(stored);
    }
  }

  lemma CloseWithin(amount: nat, percents: seq<real>)
    requires -0.01 <= Total(percents) - 100.0 <= 0.01
    ensures Close(amount, percents)
  {
    WithinTolerance(amount, percents, 0.01);
  }

  predicate TwoDecimals(percent: real)
  {
    (percent * 100.0).Floor as real == percent * 100.0
  }

  lemma StoredAsGivenIff(percent: real)
    ensures Stored(percent) == percent <==> TwoDecimals(percent)
  {
    var cents := percent * 100.0;
    if TwoDecimals(percent) { assert Round(cents) == cents.Floor; }
    if Stored(percent) == percent { assert cents == Round(cents) as real; }
  }

  /** Shares that are given with two decimals are stored as they are, so an accepted configuration is close. */
  lemma TwoDecimalsClose(shares: seq<Share>, amount: nat)
    requires SumsToHundred(shares) && forall i :: 0 <= i < |shares| ==> TwoDecimals(shares[i].percent)
    ensures Close(amount, StoredPercents(shares))
  {
    hide Close, AmountsOf, Total, Stored, TwoDecimals;
    forall i | 0 <= i < |shares| ensures Stored(shares[i].percent) == shares[i].percent {
      StoredAsGivenIff(shares[i].percent);
    }
    assert StoredPercents(shares) == Percents(shares);
    PercentsTotal(shares);
    CloseWithin(amount, StoredPercents(shares));
  }

  const THIRDS := [Share("a", 33.335), Share("b", 33.335), Share("c", 33.335)]

  /** Accepted thirds of a million that charge 200 too much, where 101.5 is the narrower bound. */
  lemma ThirdsOverpay()
    ensures SumsToHundred(THIRDS) && StoredPercents(THIRDS) == [33.34, 33.34, 33.34]
    ensures AmountsOf(1000000, StoredPercents(THIRDS)) == 1000200 && !Close(1000000, StoredPercents(THIRDS))
  {
    assert Stored(33.335) == 33.34 && SplitAmount(1000000, 33.34) == 333400;
    assert THIRDS[1..][1..][1..] == [];
    assert TotalPercent(THIRDS[1..][1..]) == 33.335 + TotalPercent([]);
    assert TotalPercent(THIRDS[1..]) == 33.335 + TotalPercent(THIRDS[1..][1..]);
    var stored := StoredPercents(THIRDS);
    assert stored[1..][1..][1..] == [];
    assert AmountsOf(1000000, stored[1..][1..]) == 333400 + AmountsOf(1000000, []);
    assert AmountsOf(1000000, stored[1..]) == 333400 + AmountsOf(1000000, stored[1..][1..]);
  }
}
