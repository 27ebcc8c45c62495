/** Derived figures of one account's ledger (script.js, `calcDisplayBalance`,
    `calcDisplaySummary` and the loan rule). A movement is a signed amount:
    positive is money in, negative is money out. */
module Ledger {
  import opened Wrappers

  /** `reduce((acc, cur) => acc + cur, 0)`: a left-to-right sum seeded with 0. */
  function Sum(s: seq<real>): real
  {
    if s == [] then 0.0 else Sum(s[..|s| - 1]) + s[|s| - 1]
  }

  /** `reduce((acc, x) => acc + x)` without a seed: it starts from the first element
      and throws a TypeError on an empty array, modelled as None. */
  function ReduceNoSeed(s: seq<real>): (r: Option<real>)
    ensures r.None? <==> s == []
    ensures r.Some? ==> r.value == Sum(s)
  {
    if s == [] then None
    else if |s| == 1 then Some(s[0])
    else Some(ReduceNoSeed(s[..|s| - 1]).value + s[|s| - 1])
  }

  /** The balance shown for an account (script.js:141). */
  function Balance(movements: seq<real>): real
  {
    Sum(movements)
  }

  /** Appending a movement moves the balance by exactly that amount. */
  lemma BalanceAfterAppend(movements: seq<real>, m: real)
    ensures Balance(movements + [m]) == Balance(movements) + m
  {
    assert (movements + [m])[..|movements|] == movements;
  }

  /** A ledger with a positive balance has a deposit. */
  lemma {:induction false} PositiveBalanceHasDeposit(movements: seq<real>)
    requires Balance(movements) > 0.0
    ensures exists i :: 0 <= i < |movements| && movements[i] > 0.0
  {
    var init := movements[..|movements| - 1];
    if movements[|movements| - 1] <= 0.0 {
      PositiveBalanceHasDeposit(init);
      var i :| 0 <= i < |init| && init[i] > 0.0;
      assert movements[i] == init[i];
    }
  }

  /** `filter(mov => mov > 0)`. */
  function Deposits(movements: seq<real>): (r: seq<real>)
    ensures forall x :: x in r <==> x in movements && x > 0.0
  {
    if movements == [] then []
    else
      var last := movements[|movements| - 1];
      Deposits(movements[..|movements| - 1]) + (if last > 0.0 then [last] else [])
  }

  /** The filter keeps every deposit as many times as it occurs, and nothing else. */
  lemma {:induction false} DepositsKeepCounts(movements: seq<real>)
    ensures forall x :: multiset(Deposits(movements))[x] == if x > 0.0 then multiset(movements)[x] else 0
  {
    if movements != [] {
      var init, last := movements[..|movements| - 1], movements[|movements| - 1];
      DepositsKeepCounts(init);
      assert movements == init + [last];
    }
  }

  /** The filter works movement by movement: filtering a concatenation concatenates
      the filtered parts, so deposits keep their recorded order. */
  lemma {:induction false} DepositsAppend(a: seq<real>, b: seq<real>)
    ensures Deposits(a + b) == Deposits(a) + Deposits(b)
  {
    if b != [] {
      var init := b[..|b| - 1];
      DepositsAppend(a, init);
      assert (a + b)[..|a + b| - 1] == a + init;
    } else {
      assert a + b == a;
    }
  }

  /** `filter(mov => mov < 0)`. */
  function Withdrawals(movements: seq<real>): (r: seq<real>)
    ensures forall x :: x in r <==> x in movements && x < 0.0
  {
    if movements == [] then []
    else
      var last := movements[|movements| - 1];
      Withdrawals(movements[..|movements| - 1]) + (if last < 0.0 then [last] else [])
  }

  /** The filter keeps every withdrawal as many times as it occurs, and nothing else. */
  lemma {:induction false} WithdrawalsKeepCounts(movements: seq<real>)
    ensures forall x :: multiset(Withdrawals(movements))[x] == if x < 0.0 then multiset(movements)[x] else 0
  {
    if movements != [] {
      var init, last := movements[..|movements| - 1], movements[|movements| - 1];
      WithdrawalsKeepCounts(init);
      assert movements == init + [last];
    }
  }

  /** The filter works movement by movement, so withdrawals keep their recorded order. */
  lemma {:induction false} WithdrawalsAppend(a: seq<real>, b: seq<real>)
    ensures Withdrawals(a + b) == Withdrawals(a) + Withdrawals(b)
  {
    if b != [] {
      var init := b[..|b| - 1];
      WithdrawalsAppend(a, init);
      assert (a + b)[..|a + b| - 1] == a + init;
    } else {
      assert a + b == a;
    }
  }

  function Abs(x: real): real { if x < 0.0 then -x else x }

  /** Total inflow as the summary computes it: the seedless sum of the deposits,
      guarded so that an account without deposits shows 0 (script.js:148-153). */
  function TotalIn(movements: seq<real>): real
  {
    var ds := Deposits(movements);
    if |ds| > 0 then ReduceNoSeed(ds).value else 0.0
  }

  /** Total outflow: the absolute value of the seedless sum of the withdrawals,
      or 0 when there are none (script.js:156-161). */
  function TotalOut(movements: seq<real>): real
  {
    var ws := Withdrawals(movements);
    if |ws| > 0 then Abs(ReduceNoSeed(ws).value) else 0.0
  }

  lemma {:induction false} SumOfPositives(s: seq<real>)
    requires forall x :: x in s ==> x > 0.0
    ensures Sum(s) >= 0.0
    ensures s != [] ==> Sum(s) > 0.0
  {
    if s != [] {
      var init := s[..|s| - 1];
      assert forall x :: x in init ==> x in s;
      assert s[|s| - 1] in s;
      SumOfPositives(init);
    }
  }

  lemma {:induction false} SumOfNegatives(s: seq<real>)
    requires forall x :: x in s ==> x < 0.0
    ensures Sum(s) <= 0.0
    ensures s != [] ==> Sum(s) < 0.0
  {
    if s != [] {
      var init := s[..|s| - 1];
      assert forall x :: x in init ==> x in s;
      assert s[|s| - 1] in s;
      SumOfNegatives(init);
    }
  }

  lemma {:induction false} SumAppend(s: seq<real>, t: seq<real>)
    ensures Sum(s + t) == Sum(s) + Sum(t)
  {
    if t == [] {
      assert s + t == s;
    } else {
      var u := s + t;
      assert u[..|u| - 1] == s + t[..|t| - 1];
      assert u[|u| - 1] == t[|t| - 1];
      SumAppend(s, t[..|t| - 1]);
    }
  }

  /** Every movement is a deposit, a withdrawal or zero, so the balance splits
      into the deposits' sum and the withdrawals' sum. */
  lemma {:induction false} BalanceSplits(movements: seq<real>)
    ensures Balance(movements) == Sum(Deposits(movements)) + Sum(Withdrawals(movements))
  {
    if movements != [] {
      var init, last := movements[..|movements| - 1], movements[|movements| - 1];
      BalanceSplits(init);
      SumAppend(Deposits(init), if last > 0.0 then [last] else []);
      SumAppend(Withdrawals(init), if last < 0.0 then [last] else []);
    }
  }

  /** Inflow is the sum of the positive movements (0 if none) and never negative;
      outflow is minus the sum of the negative movements (0 if none) and never negative. */
  lemma Totals(movements: seq<real>)
    ensures TotalIn(movements) == Sum(Deposits(movements)) >= 0.0
    ensures TotalOut(movements) == -Sum(Withdrawals(movements)) >= 0.0
  {
    SumOfPositives(Deposits(movements));
    SumOfNegatives(Withdrawals(movements));
  }

  /** Inflow is positive exactly when some movement is a deposit, outflow exactly when
      some movement is a withdrawal. */
  lemma TotalsPositive(movements: seq<real>)
    ensures TotalIn(movements) > 0.0 <==> exists i :: 0 <= i < |movements| && movements[i] > 0.0
    ensures TotalOut(movements) > 0.0 <==> exists i :: 0 <= i < |movements| && movements[i] < 0.0
  {
    var ds, ws := Deposits(movements), Withdrawals(movements);
    Totals(movements);
    SumOfPositives(ds);
    SumOfNegatives(ws);
    if ds != [] {
      assert ds[0] in ds;
      var j :| 0 <= j < |movements| && movements[j] == ds[0];
    }
    if exists i :: 0 <= i < |movements| && movements[i] > 0.0 {
      var i :| 0 <= i < |movements| && movements[i] > 0.0;
      assert movements[i] in movements;
      assert movements[i] in ds;
    }
    if ws != [] {
      assert ws[0] in ws;
      var j :| 0 <= j < |movements| && movements[j] == ws[0];
    }
    if exists i :: 0 <= i < |movements| && movements[i] < 0.0 {
      var i :| 0 <= i < |movements| && movements[i] < 0.0;
      assert movements[i] in movements;
      assert movements[i] in ws;
    }
  }

  /** The summary is consistent with the balance: inflow minus outflow is the balance. */
  lemma InMinusOutIsBalance(movements: seq<real>)
    ensures TotalIn(movements) - TotalOut(movements) == Balance(movements)
  {
    Totals(movements);
    BalanceSplits(movements);
  }

  /** Interest paid on one deposit: `deposit * rate / 100` when that is at least 1, else 0. */
  function DepositInterest(deposit: real, rate: real): real
  {
    if deposit * rate / 100.0 >= 1.0 then deposit * rate / 100.0 else 0.0
  }

  /** `map(deposit => ...)` over the deposits. */
  function DepositInterests(deposits: seq<real>, rate: real): (r: seq<real>)
    ensures |r| == |deposits|
  {
    if deposits == [] then []
    else DepositInterests(deposits[..|deposits| - 1], rate) + [DepositInterest(deposits[|deposits| - 1], rate)]
  }

  /** Interest exactly as script.js:164 computes it: filter, map, then `reduce` with no
      seed, which throws (None) on an account that has no deposit. */
  function InterestAsWritten(movements: seq<real>, rate: real): Option<real>
  {
    ReduceNoSeed(DepositInterests(Deposits(movements), rate))
  }

  /** Interest as intended: each movement in turn adds its deposit interest, starting
      from 0, so an account without deposits earns 0. */
  function Interest(movements: seq<real>, rate: real): real
  {
    if movements == [] then 0.0
    else
      var last := movements[|movements| - 1];
      Interest(movements[..|movements| - 1], rate) + (if last > 0.0 then DepositInterest(last, rate) else 0.0)
  }

  lemma DepositInterestsAppend(ds: seq<real>, d: real, rate: real)
    ensures DepositInterests(ds + [d], rate) == DepositInterests(ds, rate) + [DepositInterest(d, rate)]
  {
    assert (ds + [d])[..|ds|] == ds;
  }

  lemma {:induction false} InterestIsSumOfDepositInterests(movements: seq<real>, rate: real)
    ensures Interest(movements, rate) == Sum(DepositInterests(Deposits(movements), rate))
  {
    if movements != [] {
      var init, last := movements[..|movements| - 1], movements[|movements| - 1];
      InterestIsSumOfDepositInterests(init, rate);
      var before := DepositInterests(Deposits(init), rate);
      if last > 0.0 {
        assert Deposits(movements) == Deposits(init) + [last];
        DepositInterestsAppend(Deposits(init), last, rate);
        var after := before + [DepositInterest(last, rate)];
        assert after[..|after| - 1] == before;
        assert Sum(after) == Sum(before) + DepositInterest(last, rate);
      } else {
        assert Deposits(movements) == Deposits(init) + [];
        assert Deposits(init) + [] == Deposits(init);
      }
    }
  }

  /** The as-written interest throws exactly when the account has no deposit, and
      otherwise agrees with the intended interest. */
  lemma InterestAsWrittenAgrees(movements: seq<real>, rate: real)
    ensures InterestAsWritten(movements, rate).None? <==> forall i :: 0 <= i < |movements| ==> movements[i] <= 0.0
    ensures InterestAsWritten(movements, rate).Some? ==> InterestAsWritten(movements, rate).value == Interest(movements, rate)
  {
    InterestIsSumOfDepositInterests(movements, rate);
    var ds := Deposits(movements);
    if ds != [] {
      assert ds[0] in ds;
      var j :| 0 <= j < |movements| && movements[j] == ds[0];
    }
    if exists i :: 0 <= i < |movements| && movements[i] > 0.0 {
      var i :| 0 <= i < |movements| && movements[i] > 0.0;
      assert movements[i] in movements;
      assert movements[i] in ds;
    }
  }

  /** The throwing case made concrete: an account whose only movement is a withdrawal. */
  lemma InterestAsWrittenThrows()
    ensures InterestAsWritten([-100.0], 1.2) == None
    ensures Interest([-100.0], 1.2) == 0.0
  {
    assert Deposits([-100.0]) == [] by {
      assert [-100.0][..0] == [];
    }
  }

  /** Interest is never negative: a deposit pays at least 1 or nothing. */
  lemma {:induction false} InterestNonNegative(movements: seq<real>, rate: real)
    ensures Interest(movements, rate) >= 0.0
  {
    if movements != [] {
      InterestNonNegative(movements[..|movements| - 1], rate);
    }
  }

  /** An account without deposits earns no interest, whatever the rate. */
  lemma {:induction false} InterestWithoutDeposits(movements: seq<real>, rate: real)
    requires forall i :: 0 <= i < |movements| ==> movements[i] <= 0.0
    ensures Interest(movements, rate) == 0.0
  {
    if movements != [] {
      InterestWithoutDeposits(movements[..|movements| - 1], rate);
    }
  }

  /** Taking `rate` percent distributes over a sum. */
  lemma ShareOfSum(a: real, b: real, rate: real)
    ensures (a + b) * rate / 100.0 == a * rate / 100.0 + b * rate / 100.0
  {
  }

  /** With a non-negative rate the interest never exceeds `rate` percent of the inflow. */
  lemma {:induction false} InterestBounded(movements: seq<real>, rate: real)
    requires rate >= 0.0
    ensures Interest(movements, rate) <= Sum(Deposits(movements)) * rate / 100.0
  {
    if movements != [] {
      var init, last := movements[..|movements| - 1], movements[|movements| - 1];
      InterestBounded(init, rate);
      if last > 0.0 {
        SumAppend(Deposits(init), [last]);
        assert Sum([last]) == last by { assert [last][..0] == []; }
        assert Sum(Deposits(movements)) == Sum(Deposits(init)) + last;
        ShareOfSum(Sum(Deposits(init)), last, rate);
        assert DepositInterest(last, rate) <= last * rate / 100.0 by {
          assert last * rate >= 0.0;
        }
      } else {
        assert Deposits(movements) == Deposits(init);
      }
    }
  }

  /** A new deposit whose interest would be below 1 adds nothing; one at or above 1
      adds exactly `deposit * rate / 100`; a withdrawal adds nothing. */
  lemma InterestOfAppended(movements: seq<real>, m: real, rate: real)
    ensures m > 0.0 && m * rate / 100.0 >= 1.0 ==> Interest(movements + [m], rate) == Interest(movements, rate) + m * rate / 100.0
    ensures m <= 0.0 || m * rate / 100.0 < 1.0 ==> Interest(movements + [m], rate) == Interest(movements, rate)
  {
    assert (movements + [m])[..|movements|] == movements;
  }

  /** The worked example: deposits 1000 and 1.2 at 1.2% earn 12 and 0.0144, and only
      the first is paid. */
  lemma InterestExample()
    ensures Interest([1000.0, 1.2], 1.2) == 12.0
  {
    var ms := [1000.0, 1.2];
    assert ms[..1] == [1000.0] && [1000.0][..0] == [];
    assert DepositInterest(1.2, 1.2) == 0.0;
    assert DepositInterest(1000.0, 1.2) == 12.0;
  }

  /** `movements.some(mov => mov >= threshold)`, scanning from the front. */
  function SomeAtLeast(movements: seq<real>, threshold: real): (r: bool)
    ensures r <==> exists i :: 0 <= i < |movements| && movements[i] >= threshold
  {
    if movements == [] then false
    else movements[0] >= threshold || SomeAtLeast(movements[1..], threshold)
  }

  /** `Math.floor` of the requested amount. */
  function LoanAmount(input: real): (loan: int)
    ensures loan as real <= input < loan as real + 1.0
  {
    input.Floor
  }

  /** The loan rule: a positive loan is granted when some movement is at least 10% of it
      (script.js:328). */
  predicate LoanApproved(movements: seq<real>, loan: int)
  {
    loan > 0 && SomeAtLeast(movements, loan as real * 0.1)
  }

  /** If a loan is granted, every smaller positive loan is granted too. */
  lemma LoanRuleMonotone(movements: seq<real>, loan: int, smaller: int)
    requires LoanApproved(movements, loan)
    requires 0 < smaller <= loan
    ensures LoanApproved(movements, smaller)
  {
    var i :| 0 <= i < |movements| && movements[i] >= loan as real * 0.1;
    assert movements[i] >= smaller as real * 0.1;
  }

  /** Only a positive whole amount, and only up to ten times the largest movement. */
  lemma LoanRuleBound(movements: seq<real>, loan: int)
    ensures LoanApproved(movements, loan) <==>
      loan > 0 && exists i :: 0 <= i < |movements| && loan as real <= 10.0 * movements[i]
  {
    if LoanApproved(movements, loan) {
      var i :| 0 <= i < |movements| && movements[i] >= loan as real * 0.1;
      assert loan as real <= 10.0 * movements[i];
    }
    if loan > 0 && exists i :: 0 <= i < |movements| && loan as real <= 10.0 * movements[i] {
      var i :| 0 <= i < |movements| && loan as real <= 10.0 * movements[i];
      assert movements[i] >= loan as real * 0.1;
    }
  }

  /** Movements [50, -20]: the largest movement, 50, covers any loan up to 500, and a
      loan of 501 is refused. */
  lemma LoanExamples()
    ensures LoanApproved([50.0, -20.0], LoanAmount(500.0))
    ensures LoanApproved([50.0, -20.0], LoanAmount(500.9))
    ensures !LoanApproved([50.0, -20.0], LoanAmount(501.0))
    ensures !LoanApproved([50.0, -20.0], LoanAmount(0.5))
  {
    assert LoanAmount(500.0) == 500 && LoanAmount(500.9) == 500;
    assert LoanAmount(501.0) == 501 && LoanAmount(0.5) == 0;
    var ms := [50.0, -20.0];
    assert ms[0] >= 50.0;
    assert forall i :: 0 <= i < |ms| ==> ms[i] < 50.1;
  }
}
