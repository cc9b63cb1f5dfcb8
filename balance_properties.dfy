/** What `calculateBalances` (src/lib/settlement.ts) guarantees about
    totals: each expense's credits and charges summed over a roster with
    no repeated names, and the sum of the final balances. */
module BalanceProperties {
  import opened Options
  import opened Records
  import opened Seqs
  import opened Settlement

  /** The per-member credit of `e`, as a function to sum. */
  function PaidOf(e: Expense): string -> real {
    m => PaidShare(e, m)
  }

  /** The per-member charge of `e`, as a function to sum. */
  function OwedOf(e: Expense): string -> real {
    m => OwedShare(e, m)
  }

  /** What charging the occurrences in `listed` adds to each member. */
  function ChargesOf(e: Expense, listed: seq<string>): string -> real
    requires |e.beneficiaries| > 0
  {
    m => ChargesTo(e, listed, m)
  }

  /** The charge one listing of `b` carries when `b` is on the roster. */
  function RosterCharge(e: Expense, roster: seq<string>): string -> real
    requires |e.beneficiaries| > 0
  {
    b => if b in roster then Charge(e, b) else 0.0
  }

  /** The amount of a share. */
  function ShareValue(): Entry -> real {
    (x: Entry) => x.value
  }

  /** The credit each sponsor entry carries when its name is on the roster
      and its share is positive. */
  function SponsorValue(roster: seq<string>): Entry -> real {
    (x: Entry) => if x.key in roster && x.value > 0.0 then x.value else 0.0
  }

  /** How many of the listed names are on the roster, with repetition. */
  function CountIn(listed: seq<string>, roster: seq<string>): (n: nat)
    ensures n <= |listed|
  {
    if listed == [] then 0
    else CountIn(listed[..|listed| - 1], roster) + (if listed[|listed| - 1] in roster then 1 else 0)
  }

  lemma {:induction false} CountAll(listed: seq<string>, roster: seq<string>)
    requires forall b :: b in listed ==> b in roster
    ensures CountIn(listed, roster) == |listed|
  {
    if listed != [] {
      var init := listed[..|listed| - 1];
      assert forall b :: b in init ==> b in listed;
      CountAll(init, roster);
    }
  }

  /** Two rearrangements of a quotient. */
  lemma Rescale(a: real, b: real, d: real)
    requires d != 0.0
    ensures a / d * b == a * b / d
    ensures a * d / d == a
  {
  }

  // ---------------------------------------------------------------------
  // Who paid

  /** Without joint shares the roster is credited the whole amount when
      the payer is on it, and nothing otherwise. */
  lemma SinglePayerCredit(e: Expense, roster: seq<string>)
    requires NoDup(roster) && !HasJointShares(e)
    ensures Sum(roster, PaidOf(e)) == if e.paidBy in roster then e.amount else 0.0
  {
    if e.paidBy in roster {
      SumSingle(roster, e.paidBy, PaidOf(e));
    } else {
      SumZero(roster, PaidOf(e));
    }
  }

  /** With joint shares the roster is credited exactly the positive shares
      listed under roster names; the payer gets nothing as payer. */
  lemma {:induction false} JointCredit(shares: Record, roster: seq<string>)
    requires NoDup(roster)
    ensures Sum(roster, m => SponsorCredit(shares, m)) == Sum(shares, SponsorValue(roster))
  {
    if shares == [] {
      SumZero(roster, m => SponsorCredit(shares, m));
    } else {
      var init, x := shares[..|shares| - 1], shares[|shares| - 1];
      JointCredit(init, roster);
      var f := m => SponsorCredit(init, m);
      var g := (m: string) => if x.key == m && x.value > 0.0 then x.value else 0.0;
      SumCongruent(roster, m => SponsorCredit(init, m), f);
      SumAdd(roster, f, g, m => SponsorCredit(shares, m));
      if x.key in roster {
        SumSingle(roster, x.key, g);
      } else {
        SumZero(roster, g);
      }
    }
  }

  lemma JointPayerCredit(e: Expense, roster: seq<string>)
    requires NoDup(roster) && HasJointShares(e)
    ensures Sum(roster, PaidOf(e)) == Sum(e.jointTreatShares.value, SponsorValue(roster))
  {
    JointCredit(e.jointTreatShares.value, roster);
    SumCongruent(roster, PaidOf(e), m => SponsorCredit(e.jointTreatShares.value, m));
  }

  // ---------------------------------------------------------------------
  // Who owes

  /** Summing the charges per member is summing them per listing. */
  lemma {:induction false} ChargesSwap(e: Expense, listed: seq<string>, roster: seq<string>)
    requires |e.beneficiaries| > 0 && NoDup(roster)
    ensures Sum(roster, ChargesOf(e, listed)) == Sum(listed, RosterCharge(e, roster))
  {
    if listed == [] {
      SumZero(roster, ChargesOf(e, listed));
    } else {
      var init, b := listed[..|listed| - 1], listed[|listed| - 1];
      ChargesSwap(e, init, roster);
      var g := (m: string) => if b == m then Charge(e, m) else 0.0;
      SumAdd(roster, ChargesOf(e, init), g, ChargesOf(e, listed));
      if b in roster {
        SumSingle(roster, b, g);
      } else {
        SumZero(roster, g);
      }
    }
  }

  /** The charges of a non-gift expense with beneficiaries, summed over
      the roster, are the charges of its listings on the roster. */
  lemma OwedIsListedCharges(e: Expense, roster: seq<string>)
    requires NoDup(roster) && |e.beneficiaries| > 0 && !e.isGift
    ensures Sum(roster, OwedOf(e)) == Sum(e.beneficiaries, RosterCharge(e, roster))
  {
    SumCongruent(roster, OwedOf(e), ChargesOf(e, e.beneficiaries));
    ChargesSwap(e, e.beneficiaries, roster);
  }

  /** A gift, or an expense without beneficiaries, charges nobody. */
  lemma NothingOwed(e: Expense, roster: seq<string>)
    requires e.isGift || |e.beneficiaries| == 0
    ensures Sum(roster, OwedOf(e)) == 0.0
  {
    SumZero(roster, OwedOf(e));
  }

  /** `n` copies of `c` added up. */
  function Times(c: real, n: nat): real {
    if n == 0 then 0.0 else Times(c, n - 1) + c
  }

  lemma {:induction false} TimesIsProduct(c: real, n: nat)
    ensures Times(c, n) == c * n as real
  {
    if n > 0 {
      TimesIsProduct(c, n - 1);
      MulCount(c, n, n - 1);
    }
  }

  /** `c` times a count that grew by one. */
  lemma MulCount(c: real, n: nat, m: nat)
    requires n == m + 1
    ensures c * n as real == c * m as real + c
  {
  }

  /** A function equal to `c` on roster names and to 0 elsewhere sums to
      `c` once per roster listing. */
  lemma {:induction false} SumOnRosterTimes(listed: seq<string>, roster: seq<string>, f: string -> real, c: real)
    requires forall b :: b in listed ==> f(b) == if b in roster then c else 0.0
    ensures Sum(listed, f) == Times(c, CountIn(listed, roster))
  {
    if listed != [] {
      var init, b := listed[..|listed| - 1], listed[|listed| - 1];
      assert forall x :: x in init ==> x in listed;
      SumOnRosterTimes(init, roster, f, c);
    }
  }

  /** A function equal to `c` on roster names and to 0 elsewhere sums to
      `c` times the number of roster listings. */
  lemma SumOnRoster(listed: seq<string>, roster: seq<string>, f: string -> real, c: real)
    requires forall b :: b in listed ==> f(b) == if b in roster then c else 0.0
    ensures Sum(listed, f) == c * CountIn(listed, roster) as real
  {
    SumOnRosterTimes(listed, roster, f, c);
    TimesIsProduct(c, CountIn(listed, roster));
  }

  /** Equal split (also the fallback without split data): the roster is
      charged the amount times the share of listings that are on it, so
      the whole amount when every listed name is on the roster. A name
      listed twice is charged twice. */
  lemma EqualCharges(e: Expense, roster: seq<string>, share: real)
    requires NoDup(roster) && |e.beneficiaries| > 0 && !e.isGift
    requires !SplitsByPercentage(e) && !SplitsByWeight(e)
    requires share == e.amount / |e.beneficiaries| as real
    ensures Sum(roster, OwedOf(e)) == share * CountIn(e.beneficiaries, roster) as real
  {
    OwedIsListedCharges(e, roster);
    EqualListed(e, roster, share);
  }

  lemma EqualListed(e: Expense, roster: seq<string>, c: real)
    requires |e.beneficiaries| > 0 && !SplitsByPercentage(e) && !SplitsByWeight(e)
    requires c == e.amount / |e.beneficiaries| as real
    ensures Sum(e.beneficiaries, RosterCharge(e, roster)) == c * CountIn(e.beneficiaries, roster) as real
  {
    EqualPointwise(e, roster, c);
    SumOnRoster(e.beneficiaries, roster, RosterCharge(e, roster), c);
  }

  lemma EqualPointwise(e: Expense, roster: seq<string>, c: real)
    requires |e.beneficiaries| > 0 && !SplitsByPercentage(e) && !SplitsByWeight(e)
    requires c == e.amount / |e.beneficiaries| as real
    ensures forall b :: RosterCharge(e, roster)(b) == if b in roster then c else 0.0
  {
  }

  /** When every listed name is on the roster, an equal split charges the
      roster exactly the amount. */
  lemma EqualChargesAll(e: Expense, roster: seq<string>)
    requires NoDup(roster) && |e.beneficiaries| > 0 && !e.isGift
    requires !SplitsByPercentage(e) && !SplitsByWeight(e)
    requires forall b :: b in e.beneficiaries ==> b in roster
    ensures Sum(roster, OwedOf(e)) == e.amount
  {
    EqualCharges(e, roster, e.amount / |e.beneficiaries| as real);
    CountAll(e.beneficiaries, roster);
    Rescale(e.amount, |e.beneficiaries| as real, |e.beneficiaries| as real);
  }

  /** Percentage split: the roster is charged the amount times the listed
      percentages of roster names, over 100. */
  lemma PercentageCharges(e: Expense, roster: seq<string>, rate: real)
    requires NoDup(roster) && |e.beneficiaries| > 0 && !e.isGift && SplitsByPercentage(e)
    requires rate == e.amount / 100.0
    ensures Sum(roster, OwedOf(e)) == rate * Sum(e.beneficiaries, RosterPercent(e.splitData.value, roster))
  {
    OwedIsListedCharges(e, roster);
    PercentListed(e, roster, rate);
  }

  lemma PercentListed(e: Expense, roster: seq<string>, c: real)
    requires |e.beneficiaries| > 0 && SplitsByPercentage(e) && c == e.amount / 100.0
    ensures Sum(e.beneficiaries, RosterCharge(e, roster)) == c * Sum(e.beneficiaries, RosterPercent(e.splitData.value, roster))
  {
    PercentPointwise(e, roster, c);
    ScaledSum(e.beneficiaries, RosterCharge(e, roster), RosterPercent(e.splitData.value, roster), c);
  }

  lemma PercentPointwise(e: Expense, roster: seq<string>, c: real)
    requires |e.beneficiaries| > 0 && SplitsByPercentage(e) && c == e.amount / 100.0
    ensures ScaledBy(RosterCharge(e, roster), RosterPercent(e.splitData.value, roster), c)
  {
  }

  /** Under a weight split each roster listing is charged the amount over
      the weight total, times its weight. */
  lemma WeightPointwise(e: Expense, roster: seq<string>, c: real)
    requires |e.beneficiaries| > 0 && !SplitsByPercentage(e) && SplitsByWeight(e)
    requires TotalWeight(e.splitData.value, e.beneficiaries) != 0.0
    requires c == e.amount / TotalWeight(e.splitData.value, e.beneficiaries)
    ensures ScaledBy(RosterCharge(e, roster), RosterWeight(e.splitData.value, roster), c)
  {
    forall b ensures RosterCharge(e, roster)(b) == c * RosterWeight(e.splitData.value, roster)(b) {
      WeightPointOne(e, roster, c, b);
    }
  }

  lemma WeightPointOne(e: Expense, roster: seq<string>, c: real, b: string)
    requires |e.beneficiaries| > 0 && !SplitsByPercentage(e) && SplitsByWeight(e)
    requires TotalWeight(e.splitData.value, e.beneficiaries) != 0.0
    requires c == e.amount / TotalWeight(e.splitData.value, e.beneficiaries)
    ensures RosterCharge(e, roster)(b) == c * RosterWeight(e.splitData.value, roster)(b)
  {
    var w, total := WeightOf(e.splitData.value, b), TotalWeight(e.splitData.value, e.beneficiaries);
    if b in roster {
      WeightChargeIs(e, b, w, total, e.amount * w / total);
      assert RosterCharge(e, roster)(b) == e.amount * w / total;
      assert RosterWeight(e.splitData.value, roster)(b) == w;
      Rescale(e.amount, w, total);
      assert c * w == e.amount / total * w;
    } else {
      assert RosterCharge(e, roster)(b) == 0.0 && RosterWeight(e.splitData.value, roster)(b) == 0.0;
    }
  }

  /** The percentage of a listed name when it is on the roster. */
  function RosterPercent(sd: Record, roster: seq<string>): string -> real {
    b => if b in roster then PercentOf(sd, b) else 0.0
  }

  /** The weight of a listed name when it is on the roster. */
  function RosterWeight(sd: Record, roster: seq<string>): string -> real {
    b => if b in roster then WeightOf(sd, b) else 0.0
  }

  /** `f` is `g` scaled by `c` at every name. */
  ghost predicate ScaledBy(f: string -> real, g: string -> real, c: real) {
    forall b :: f(b) == c * g(b)
  }

  lemma {:induction false} ScaledSum(s: seq<string>, f: string -> real, g: string -> real, c: real)
    requires ScaledBy(f, g, c)
    ensures Sum(s, f) == c * Sum(s, g)
  {
    if s != [] {
      ScaledSum(s[..|s| - 1], f, g, c);
    }
  }

  lemma {:induction false} TotalWeightOnRoster(sd: Record, listed: seq<string>, roster: seq<string>)
    requires forall b :: b in listed ==> b in roster
    ensures TotalWeight(sd, listed) == Sum(listed, RosterWeight(sd, roster))
  {
    if listed != [] {
      var init := listed[..|listed| - 1];
      assert forall b :: b in init ==> b in listed;
      TotalWeightOnRoster(sd, init, roster);
    }
  }

  /** Weight split: the roster is charged the amount over the weight of
      every listed name, times the weight of its own listed names. */
  lemma WeightCharges(e: Expense, roster: seq<string>, rate: real)
    requires NoDup(roster) && |e.beneficiaries| > 0 && !e.isGift
    requires !SplitsByPercentage(e) && SplitsByWeight(e)
    requires TotalWeight(e.splitData.value, e.beneficiaries) != 0.0
    requires rate == e.amount / TotalWeight(e.splitData.value, e.beneficiaries)
    ensures Sum(roster, OwedOf(e)) == rate * Sum(e.beneficiaries, RosterWeight(e.splitData.value, roster))
  {
    OwedIsListedCharges(e, roster);
    WeightListed(e, roster, rate);
  }

  lemma WeightListed(e: Expense, roster: seq<string>, c: real)
    requires |e.beneficiaries| > 0 && !SplitsByPercentage(e) && SplitsByWeight(e)
    requires TotalWeight(e.splitData.value, e.beneficiaries) != 0.0
    requires c == e.amount / TotalWeight(e.splitData.value, e.beneficiaries)
    ensures Sum(e.beneficiaries, RosterCharge(e, roster)) == c * Sum(e.beneficiaries, RosterWeight(e.splitData.value, roster))
  {
    WeightPointwise(e, roster, c);
    ScaledSum(e.beneficiaries, RosterCharge(e, roster), RosterWeight(e.splitData.value, roster), c);
  }

  /** When every listed name is on the roster (and the weights do not
      cancel out), a weight split charges the roster exactly the amount. */
  lemma WeightChargesAll(e: Expense, roster: seq<string>)
    requires NoDup(roster) && |e.beneficiaries| > 0 && !e.isGift
    requires !SplitsByPercentage(e) && SplitsByWeight(e)
    requires TotalWeight(e.splitData.value, e.beneficiaries) != 0.0
    requires forall b :: b in e.beneficiaries ==> b in roster
    ensures Sum(roster, OwedOf(e)) == e.amount
  {
    var total := TotalWeight(e.splitData.value, e.beneficiaries);
    WeightCharges(e, roster, e.amount / total);
    TotalWeightOnRoster(e.splitData.value, e.beneficiaries, roster);
    Rescale(e.amount, total, total);
  }

  // ---------------------------------------------------------------------
  // Whole folds

  /** The roster's combined paid, owed and balance after `es`. */
  function PaidAfter(es: seq<Expense>): string -> real {
    m => TotalPaid(es, m)
  }

  function OwedAfter(es: seq<Expense>): string -> real {
    m => TotalOwed(es, m)
  }

  function BalanceAfter(es: seq<Expense>): string -> real {
    m => FinalBalance(es, m).balance
  }

  /** What expense `e` credits a member minus what it charges them. */
  function NetOf(e: Expense): string -> real {
    m => PaidShare(e, m) - OwedShare(e, m)
  }

  /** What expense `e` credits the roster minus what it charges it. */
  function Net(roster: seq<string>): Expense -> real {
    e => Sum(roster, NetOf(e))
  }

  lemma NetSplit(e: Expense, roster: seq<string>)
    ensures Net(roster)(e) == Sum(roster, PaidOf(e)) - Sum(roster, OwedOf(e))
  {
    SumSub(roster, PaidOf(e), OwedOf(e), NetOf(e));
  }

  /** The balances of the roster sum to what the expenses credit it minus
      what they charge it, expense by expense. */
  lemma {:induction false} BalanceSum(es: seq<Expense>, roster: seq<string>)
    ensures Sum(roster, BalanceAfter(es)) == Sum(es, Net(roster))
  {
    if es == [] {
      SumZero(roster, BalanceAfter(es));
    } else {
      var init, e := es[..|es| - 1], es[|es| - 1];
      BalanceSum(init, roster);
      forall m | m in roster ensures BalanceAfter(es)(m) == BalanceAfter(init)(m) + NetOf(e)(m) {
        assert TotalPaid(es, m) == TotalPaid(init, m) + PaidShare(e, m);
        assert TotalOwed(es, m) == TotalOwed(init, m) + OwedShare(e, m);
      }
      SumAdd(roster, BalanceAfter(init), NetOf(e), BalanceAfter(es));
    }
  }

  /** What expense `e` credits the roster, and its amount, as functions
      to sum over expenses. */
  function Credit(roster: seq<string>): Expense -> real {
    e => Sum(roster, PaidOf(e))
  }

  function AmountOf(): Expense -> real {
    (e: Expense) => e.amount
  }

  /** The roster's `paid` totals sum to what the expenses credit it,
      expense by expense. */
  lemma {:induction false} PaidSum(es: seq<Expense>, roster: seq<string>)
    ensures Sum(roster, PaidAfter(es)) == Sum(es, Credit(roster))
  {
    if es == [] {
      SumZero(roster, PaidAfter(es));
    } else {
      var init, e := es[..|es| - 1], es[|es| - 1];
      PaidSum(init, roster);
      forall m | m in roster ensures PaidAfter(es)(m) == PaidAfter(init)(m) + PaidOf(e)(m) {
        assert TotalPaid(es, m) == TotalPaid(init, m) + PaidShare(e, m);
      }
      SumAdd(roster, PaidAfter(init), PaidOf(e), PaidAfter(es));
    }
  }

  /** An expense that credits the roster its whole amount: a single
      payer on the roster, or sponsors on the roster whose positive
      shares add up to the amount. */
  ghost predicate FullyCredited(e: Expense, roster: seq<string>) {
    Sum(roster, PaidOf(e)) == e.amount
  }

  /** Conservation: when every expense credits the roster its amount, the
      roster's `paid` totals add up to the sum of all amounts. */
  lemma PaidConserved(es: seq<Expense>, roster: seq<string>)
    requires forall e :: e in es ==> FullyCredited(e, roster)
    ensures Sum(roster, PaidAfter(es)) == Sum(es, AmountOf())
  {
    PaidSum(es, roster);
    SumCongruent(es, Credit(roster), AmountOf());
  }

  /** A single payer on the roster is credited the whole amount. */
  lemma SinglePayerFullyCredited(e: Expense, roster: seq<string>)
    requires NoDup(roster) && !HasJointShares(e) && e.paidBy in roster
    ensures FullyCredited(e, roster)
  {
    SinglePayerCredit(e, roster);
  }

  /** Sponsors on the roster with positive shares that add up to the
      amount are credited the whole amount; the payer field is ignored. */
  lemma JointFullyCredited(e: Expense, roster: seq<string>)
    requires NoDup(roster) && HasJointShares(e)
    requires forall x :: x in e.jointTreatShares.value ==> x.key in roster && x.value > 0.0
    requires Sum(e.jointTreatShares.value, ShareValue()) == e.amount
    ensures FullyCredited(e, roster)
  {
    var shares := e.jointTreatShares.value;
    JointPayerCredit(e, roster);
    SumCongruent(shares, SponsorValue(roster), ShareValue());
  }

  /** A balanced expense charges the roster exactly what it credits it. */
  ghost predicate Balanced(e: Expense, roster: seq<string>) {
    Sum(roster, PaidOf(e)) == Sum(roster, OwedOf(e))
  }

  lemma BalancedSumsToZero(es: seq<Expense>, roster: seq<string>)
    requires forall e :: e in es ==> Balanced(e, roster)
    ensures Sum(es, Net(roster)) == 0.0
  {
    forall e | e in es ensures Net(roster)(e) == 0.0 {
      NetSplit(e, roster);
    }
    SumZero(es, Net(roster));
  }

  /** When every expense is balanced, the roster's balances sum to zero. */
  lemma ZeroSum(es: seq<Expense>, roster: seq<string>)
    requires forall e :: e in es ==> Balanced(e, roster)
    ensures Sum(roster, BalanceAfter(es)) == 0.0
  {
    BalanceSum(es, roster);
    BalancedSumsToZero(es, roster);
  }

  /** An equally split expense paid and consumed inside the roster is
      balanced. */
  lemma EqualInsideRosterBalanced(e: Expense, roster: seq<string>)
    requires NoDup(roster) && !HasJointShares(e) && e.paidBy in roster
    requires |e.beneficiaries| > 0 && !e.isGift && !SplitsByPercentage(e) && !SplitsByWeight(e)
    requires forall b :: b in e.beneficiaries ==> b in roster
    ensures Balanced(e, roster)
  {
    SinglePayerCredit(e, roster);
    EqualChargesAll(e, roster);
  }

  /** A gift paid by a roster member leaves its whole amount as surplus
      in the balances. */
  lemma GiftSurplus(e: Expense, roster: seq<string>)
    requires NoDup(roster) && !HasJointShares(e) && e.paidBy in roster && e.isGift
    ensures Net(roster)(e) == e.amount
  {
    SinglePayerCredit(e, roster);
    NothingOwed(e, roster);
    NetSplit(e, roster);
  }
}
