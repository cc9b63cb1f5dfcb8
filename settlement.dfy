/** The balance and settlement engine (src/lib/settlement.ts): the expense
    record, the balance accumulator `calculateBalances`, the greedy
    settlement planner `calculateSettlements`, and the spreadsheet row
    that `exportToExcel` writes for an expense. Amounts are exact reals. */
module Settlement {
  import opened Options
  import opened Records
  import opened Text
  import opened Runtime
  import opened Sheet

  /** The fixed tolerance below which an amount counts as settled. */
  const Epsilon: real := 0.01

  /** `split_type`. Anything other than the three names behaves as an
      equal split; `Other` keeps the text an import may carry. */
  datatype SplitType = Equal | Percentage | Weight | Other(name: string)

  datatype Expense = Expense(
    id: string,
    expenseDate: string,
    paidBy: string,
    amount: real,
    beneficiaries: seq<string>,
    isGift: bool,
    giftTo: seq<string>,
    jointTreatShares: Option<Record>,
    splitType: Option<SplitType>,
    splitData: Option<Record>,
    notes: string)

  datatype MemberBalance = MemberBalance(paid: real, owes: real, balance: real)

  /** The source's `Settlement`: pay `amount` from `from` to `to`. */
  datatype Transfer = Transfer(from: string, to: string, amount: real)

  const Zero := MemberBalance(0.0, 0.0, 0.0)

  // ---------------------------------------------------------------------
  // Who paid

  /** Joint sponsors replace the single payer once the shares object has
      at least one key. */
  predicate HasJointShares(e: Expense) {
    e.jointTreatShares.Some? && |e.jointTreatShares.value| > 0
  }

  /** What the sponsor entries credit to `m`: every positive share listed
      under `m`. */
  function SponsorCredit(shares: Record, m: string): real {
    if shares == [] then 0.0
    else
      var last := shares[|shares| - 1];
      SponsorCredit(shares[..|shares| - 1], m) + (if last.key == m && last.value > 0.0 then last.value else 0.0)
  }

  /** Sponsors are never debited, and a name without a share gets nothing. */
  lemma {:induction false} SponsorCreditBounds(shares: Record, m: string)
    ensures SponsorCredit(shares, m) >= 0.0
    ensures m !in Keys(shares) ==> SponsorCredit(shares, m) == 0.0
  {
    if shares != [] {
      var init := shares[..|shares| - 1];
      SponsorCreditBounds(init, m);
      assert forall d :: d in init ==> d in shares;
    }
  }

  /** What expense `e` adds to the `paid` of roster member `m`. */
  function PaidShare(e: Expense, m: string): real {
    if HasJointShares(e) then SponsorCredit(e.jointTreatShares.value, m)
    else if e.paidBy == m then e.amount
    else 0.0
  }

  /** Only a listed sponsor, or without sponsors the payer, is credited,
      and never a negative amount unless the expense has one. */
  lemma PaidShareWho(e: Expense, m: string)
    ensures PaidShare(e, m) != 0.0 ==>
      if HasJointShares(e) then m in Keys(e.jointTreatShares.value) else m == e.paidBy
    ensures HasJointShares(e) || e.amount >= 0.0 ==> PaidShare(e, m) >= 0.0
  {
    if HasJointShares(e) {
      SponsorCreditBounds(e.jointTreatShares.value, m);
    }
  }

  // ---------------------------------------------------------------------
  // Who owes

  /** The percentage branch is taken only with split data present. */
  predicate SplitsByPercentage(e: Expense) {
    e.splitType == Some(Percentage) && e.splitData.Some?
  }

  /** The weight branch is taken only with split data present. */
  predicate SplitsByWeight(e: Expense) {
    e.splitType == Some(Weight) && e.splitData.Some?
  }

  /** `split_data[b] || 1`: a missing or zero weight counts as 1. */
  function WeightOf(sd: Record, b: string): real {
    match Lookup(sd, b)
    case Some(w) => if w != 0.0 then w else 1.0
    case None => 1.0
  }

  /** The weight total, summed over every listed beneficiary, whether or
      not the beneficiary is on the roster. */
  function TotalWeight(sd: Record, bs: seq<string>): real {
    if bs == [] then 0.0 else TotalWeight(sd, bs[..|bs| - 1]) + WeightOf(sd, bs[|bs| - 1])
  }

  /** `split_data[b]` when it is truthy (non-zero), else 0. */
  function PercentOf(sd: Record, b: string): real {
    match Lookup(sd, b)
    case Some(p) => p
    case None => 0.0
  }

  /** What one listed occurrence of `b` adds to `b`'s `owes`; in an
      equal split the shares of all listings make up the amount. */
  function Charge(e: Expense, b: string): (r: real)
    requires |e.beneficiaries| > 0
  {
    if SplitsByPercentage(e) then
      e.amount * PercentOf(e.splitData.value, b) / 100.0
    else if SplitsByWeight(e) then
      var total := TotalWeight(e.splitData.value, e.beneficiaries);
      if total != 0.0 then e.amount * WeightOf(e.splitData.value, b) / total else 0.0
    else
      e.amount / |e.beneficiaries| as real
  }

  /** What charging the occurrences in `listed` adds to `m`'s `owes`. */
  function ChargesTo(e: Expense, listed: seq<string>, m: string): real
    requires |e.beneficiaries| > 0
  {
    if listed == [] then 0.0
    else ChargesTo(e, listed[..|listed| - 1], m) + (if listed[|listed| - 1] == m then Charge(e, m) else 0.0)
  }

  /** A name that is not listed is charged nothing. */
  lemma {:induction false} ChargesToUnlisted(e: Expense, listed: seq<string>, m: string)
    requires |e.beneficiaries| > 0 && m !in listed
    ensures ChargesTo(e, listed, m) == 0.0
  {
    if listed != [] {
      var init := listed[..|listed| - 1];
      assert forall x :: x in init ==> x in listed;
      ChargesToUnlisted(e, init, m);
    }
  }

  /** The roster's `owes` after charging the first `j` listings of `e`. */
  ghost predicate OwesAfter(balances: map<string, MemberBalance>, r: map<string, MemberBalance>, e: Expense, j: nat)
    requires |e.beneficiaries| > 0 && j <= |e.beneficiaries|
  {
    && r.Keys == balances.Keys
    && forall m :: m in r ==> r[m] == balances[m].(owes := balances[m].owes + ChargesTo(e, e.beneficiaries[..j], m))
  }

  /** Charging listing `j` (when its name is on the roster) moves the
      roster from the first `j` listings to the first `j + 1`. */
  lemma OwesStep(balances: map<string, MemberBalance>, r: map<string, MemberBalance>, e: Expense, j: nat)
    requires |e.beneficiaries| > 0 && j < |e.beneficiaries| && OwesAfter(balances, r, e, j)
    ensures var b := e.beneficiaries[j];
      OwesAfter(balances, if b in r then r[b := r[b].(owes := r[b].owes + Charge(e, b))] else r, e, j + 1)
  {
    var bs := e.beneficiaries;
    assert bs[..j + 1][..j] == bs[..j];
  }

  /** What expense `e` adds to the `owes` of roster member `m`: nothing
      for a gift or an empty beneficiary list. */
  function OwedShare(e: Expense, m: string): real {
    if e.isGift || |e.beneficiaries| == 0 then 0.0 else ChargesTo(e, e.beneficiaries, m)
  }

  /** `m`'s `paid` after the expenses `es`. */
  function TotalPaid(es: seq<Expense>, m: string): real {
    if es == [] then 0.0 else TotalPaid(es[..|es| - 1], m) + PaidShare(es[|es| - 1], m)
  }

  /** `m`'s `owes` after the expenses `es`. */
  function TotalOwed(es: seq<Expense>, m: string): real {
    if es == [] then 0.0 else TotalOwed(es[..|es| - 1], m) + OwedShare(es[|es| - 1], m)
  }

  /** A member who neither paid nor sponsored any expense is credited
      nothing, and with no negative amount nobody's `paid` is negative. */
  lemma {:induction false} TotalPaidBounds(es: seq<Expense>, m: string)
    ensures (forall e :: e in es ==> !HasJointShares(e) && e.paidBy != m) ==> TotalPaid(es, m) == 0.0
    ensures (forall e :: e in es ==> e.amount >= 0.0) ==> TotalPaid(es, m) >= 0.0
  {
    if es != [] {
      var init := es[..|es| - 1];
      assert forall e :: e in init ==> e in es;
      TotalPaidBounds(init, m);
      PaidShareWho(es[|es| - 1], m);
    }
  }

  /** A member listed in no expense that is not a gift owes nothing. */
  lemma {:induction false} TotalOwedUnlisted(es: seq<Expense>, m: string)
    requires forall e :: e in es ==> e.isGift || m !in e.beneficiaries
    ensures TotalOwed(es, m) == 0.0
  {
    if es != [] {
      var init, e := es[..|es| - 1], es[|es| - 1];
      assert forall x :: x in init ==> x in es;
      TotalOwedUnlisted(init, m);
      if !e.isGift && |e.beneficiaries| > 0 {
        ChargesToUnlisted(e, e.beneficiaries, m);
      }
    }
  }

  /** The entry `calculateBalances` returns for roster member `m`. */
  function FinalBalance(es: seq<Expense>, m: string): (b: MemberBalance)
    ensures b.balance == b.paid - b.owes
  {
    MemberBalance(TotalPaid(es, m), TotalOwed(es, m), TotalPaid(es, m) - TotalOwed(es, m))
  }

  // ---------------------------------------------------------------------
  // calculateBalances

  /** `calculateBalances(members, expenses)`: one entry per roster name,
      whose `paid` and `owes` are the sums of what every expense credits
      and charges that name. */
  method CalculateBalances(members: seq<string>, expenses: seq<Expense>)
    returns (balances: map<string, MemberBalance>)
    ensures balances.Keys == set m | m in members
    ensures forall m :: m in balances ==> balances[m] == FinalBalance(expenses, m)
  {
    balances := map[];
    for k := 0 to |members|
      invariant balances.Keys == set m | m in members[..k]
      invariant forall m :: m in balances ==> balances[m] == Zero
    {
      assert members[..k + 1] == members[..k] + [members[k]];
      balances := balances[members[k] := Zero];
    }
    assert members[..|members|] == members;

    for n := 0 to |expenses|
      invariant balances.Keys == set m | m in members
      invariant forall m :: m in balances ==>
        balances[m] == MemberBalance(TotalPaid(expenses[..n], m), TotalOwed(expenses[..n], m), 0.0)
    {
      assert expenses[..n + 1][..n] == expenses[..n];
      balances := CreditPayers(balances, expenses[n]);
      balances := ChargeBeneficiaries(balances, expenses[n]);
    }
    assert expenses[..|expenses|] == expenses;

    var pending := balances.Keys;
    while pending != {}
      invariant balances.Keys == set m | m in members
      invariant pending <= balances.Keys
      invariant forall m :: m in balances ==>
        balances[m] == if m in pending then MemberBalance(TotalPaid(expenses, m), TotalOwed(expenses, m), 0.0)
                       else FinalBalance(expenses, m)
      decreases pending
    {
      var m :| m in pending;
      var b := balances[m];
      balances := balances[m := b.(balance := b.paid - b.owes)];
      pending := pending - {m};
    }
  }

  /** The payer half of the `forEach` body: joint sponsors, or else the
      single payer, are credited; names off the roster are skipped. */
  method CreditPayers(balances: map<string, MemberBalance>, e: Expense)
    returns (r: map<string, MemberBalance>)
    ensures r.Keys == balances.Keys
    ensures forall m :: m in r ==> r[m] == balances[m].(paid := balances[m].paid + PaidShare(e, m))
  {
    r := balances;
    if HasJointShares(e) {
      var shares := e.jointTreatShares.value;
      for q := 0 to |shares|
        invariant r.Keys == balances.Keys
        invariant forall m :: m in r ==> r[m] == balances[m].(paid := balances[m].paid + SponsorCredit(shares[..q], m))
      {
        assert shares[..q + 1][..q] == shares[..q];
        var sponsor, share := shares[q].key, shares[q].value;
        if sponsor in r && share > 0.0 {
          r := r[sponsor := r[sponsor].(paid := r[sponsor].paid + share)];
        }
      }
      assert shares[..|shares|] == shares;
    } else if e.paidBy in r {
      r := r[e.paidBy := r[e.paidBy].(paid := r[e.paidBy].paid + e.amount)];
    }
  }

  /** The beneficiary half of the `forEach` body: nothing for a gift or an
      empty list, otherwise the percentage, weight or equal branch. */
  method ChargeBeneficiaries(balances: map<string, MemberBalance>, e: Expense)
    returns (r: map<string, MemberBalance>)
    ensures r.Keys == balances.Keys
    ensures forall m :: m in r ==> r[m] == balances[m].(owes := balances[m].owes + OwedShare(e, m))
  {
    if e.isGift || |e.beneficiaries| == 0 {
      r := balances;
    } else if e.splitType == Some(Percentage) && e.splitData.Some? {
      r := ChargeByPercentage(balances, e);
    } else if e.splitType == Some(Weight) && e.splitData.Some? {
      r := ChargeByWeight(balances, e);
    } else {
      r := ChargeEqually(balances, e);
    }
  }

  /** Percentage branch: a listed roster member with a non-zero
      percentage `p` owes `amount * p / 100` per listing. */
  method ChargeByPercentage(balances: map<string, MemberBalance>, e: Expense)
    returns (r: map<string, MemberBalance>)
    requires |e.beneficiaries| > 0 && SplitsByPercentage(e)
    ensures r.Keys == balances.Keys
    ensures forall m :: m in r ==> r[m] == balances[m].(owes := balances[m].owes + ChargesTo(e, e.beneficiaries, m))
  {
    r := balances;
    var bs, sd := e.beneficiaries, e.splitData.value;
    for j := 0 to |bs|
      invariant OwesAfter(balances, r, e, j)
    {
      var b := bs[j];
      var p := Lookup(sd, b);
      if b in r && p.Some? && p.value != 0.0 {
        var owedAmount := (e.amount * p.value) / 100.0;
        assert owedAmount == Charge(e, b);
        OwesStep(balances, r, e, j);
        r := r[b := r[b].(owes := r[b].owes + owedAmount)];
      } else if b in r {
        assert Charge(e, b) == 0.0;
        OwesStep(balances, r, e, j);
        assert r[b := r[b].(owes := r[b].owes + Charge(e, b))] == r;
      } else {
        OwesStep(balances, r, e, j);
      }
    }
    assert bs[..|bs|] == bs;
  }

  /** The amount the weight branch charges one listing of `b`. */
  lemma WeightChargeIs(e: Expense, b: string, weight: real, totalWeight: real, owedAmount: real)
    requires |e.beneficiaries| > 0 && !SplitsByPercentage(e) && SplitsByWeight(e)
    requires weight == WeightOf(e.splitData.value, b)
    requires totalWeight == TotalWeight(e.splitData.value, e.beneficiaries)
    requires owedAmount == if totalWeight != 0.0 then (e.amount * weight) / totalWeight else 0.0
    ensures owedAmount == Charge(e, b)
  {
    if totalWeight != 0.0 {
      SameQuotient(e.amount, weight, WeightOf(e.splitData.value, b), totalWeight, TotalWeight(e.splitData.value, e.beneficiaries));
    }
  }

  /** Equal factors give equal quotients (kept apart so that the solver
      does not have to find it among nonlinear terms). */
  lemma SameQuotient(a: real, w: real, w': real, t: real, t': real)
    requires w == w' && t == t' && t != 0.0
    ensures a * w / t == a * w' / t'
  {
  }

  /** Weight branch: a listed roster member owes `amount * w / total` per
      listing, `w` being its weight and `total` the weight of the list. */
  method ChargeByWeight(balances: map<string, MemberBalance>, e: Expense)
    returns (r: map<string, MemberBalance>)
    requires |e.beneficiaries| > 0 && !SplitsByPercentage(e) && SplitsByWeight(e)
    ensures r.Keys == balances.Keys
    ensures forall m :: m in r ==> r[m] == balances[m].(owes := balances[m].owes + ChargesTo(e, e.beneficiaries, m))
  {
    r := balances;
    var bs, sd := e.beneficiaries, e.splitData.value;
    var totalWeight := TotalWeight(sd, bs);
    for j := 0 to |bs|
      invariant OwesAfter(balances, r, e, j)
    {
      var b := bs[j];
      if b in r {
        var weight := WeightOf(sd, b);
        var owedAmount := if totalWeight != 0.0 then (e.amount * weight) / totalWeight else 0.0;
        WeightChargeIs(e, b, weight, totalWeight, owedAmount);
        OwesStep(balances, r, e, j);
        r := r[b := r[b].(owes := r[b].owes + owedAmount)];
      } else {
        OwesStep(balances, r, e, j);
      }
    }
    assert bs[..|bs|] == bs;
  }

  /** Equal branch (also a missing, unknown or data-less split type): a
      listed roster member owes `amount / |beneficiaries|` per listing. */
  method ChargeEqually(balances: map<string, MemberBalance>, e: Expense)
    returns (r: map<string, MemberBalance>)
    requires |e.beneficiaries| > 0 && !SplitsByPercentage(e) && !SplitsByWeight(e)
    ensures r.Keys == balances.Keys
    ensures forall m :: m in r ==> r[m] == balances[m].(owes := balances[m].owes + ChargesTo(e, e.beneficiaries, m))
  {
    r := balances;
    var bs := e.beneficiaries;
    var sharePerBeneficiary := e.amount / |bs| as real;
    for j := 0 to |bs|
      invariant OwesAfter(balances, r, e, j)
    {
      var b := bs[j];
      if b in r {
        assert sharePerBeneficiary == Charge(e, b);
        OwesStep(balances, r, e, j);
        r := r[b := r[b].(owes := r[b].owes + sharePerBeneficiary)];
      } else {
        OwesStep(balances, r, e, j);
      }
    }
    assert bs[..|bs|] == bs;
  }

  // ---------------------------------------------------------------------
  // calculateSettlements

  /** One entry of `Object.entries(balances)`. */
  datatype Account = Account(member: string, balance: MemberBalance)

  /** A creditor or debtor with the amount still to be settled. */
  datatype Party = Party(member: string, amount: real)

  /** A round of the greedy loop before rounding: creditor `creditor`
      and debtor `debtor` (indices into the sorted lists) settle `amount`. */
  datatype Move = Move(creditor: nat, debtor: nat, amount: real)

  /** The variables of the greedy loop. `moves` keeps every round, also
      those whose amount is too small to be emitted. */
  datatype Greedy = Greedy(
    creditors: seq<Party>, debtors: seq<Party>, i: nat, j: nat,
    settlements: seq<Transfer>, moves: seq<Move>)

  ghost predicate IsCreditor(accounts: seq<Account>, name: string) {
    exists a :: a in accounts && a.member == name && a.balance.balance > Epsilon
  }

  ghost predicate IsDebtor(accounts: seq<Account>, name: string) {
    exists a :: a in accounts && a.member == name && a.balance.balance < -Epsilon
  }

  /** The accounts with a balance above the tolerance, in entry order. */
  function CreditorsOf(accounts: seq<Account>): (r: seq<Party>)
    ensures |r| <= |accounts|
  {
    if accounts == [] then []
    else
      var a := accounts[0];
      (if a.balance.balance > Epsilon then [Party(a.member, a.balance.balance)] else []) + CreditorsOf(accounts[1..])
  }

  /** The accounts with a balance below minus the tolerance, owing the
      absolute value of the balance, in entry order. */
  function DebtorsOf(accounts: seq<Account>): (r: seq<Party>)
    ensures |r| <= |accounts|
  {
    if accounts == [] then []
    else
      var a := accounts[0];
      (if a.balance.balance < -Epsilon then [Party(a.member, -a.balance.balance)] else []) + DebtorsOf(accounts[1..])
  }

  /** Every creditor comes from an account above the tolerance. */
  lemma {:induction false} CreditorsOfSound(accounts: seq<Account>)
    ensures forall p :: p in CreditorsOf(accounts) ==> p.amount > Epsilon && IsCreditor(accounts, p.member)
  {
    if accounts != [] {
      CreditorsOfSound(accounts[1..]);
      forall p | p in CreditorsOf(accounts[1..]) ensures IsCreditor(accounts, p.member) {
        var a :| a in accounts[1..] && a.member == p.member && a.balance.balance > Epsilon;
        assert a in accounts;
      }
    }
  }

  /** Every account above the tolerance becomes a creditor. */
  lemma {:induction false} CreditorsOfComplete(accounts: seq<Account>)
    ensures forall k :: 0 <= k < |accounts| && accounts[k].balance.balance > Epsilon ==>
      Party(accounts[k].member, accounts[k].balance.balance) in CreditorsOf(accounts)
  {
    if accounts != [] {
      CreditorsOfComplete(accounts[1..]);
      forall k | 1 <= k < |accounts| ensures accounts[k] == accounts[1..][k - 1] { }
    }
  }

  /** Every debtor comes from an account below minus the tolerance. */
  lemma {:induction false} DebtorsOfSound(accounts: seq<Account>)
    ensures forall p :: p in DebtorsOf(accounts) ==> p.amount > Epsilon && IsDebtor(accounts, p.member)
  {
    if accounts != [] {
      DebtorsOfSound(accounts[1..]);
      forall p | p in DebtorsOf(accounts[1..]) ensures IsDebtor(accounts, p.member) {
        var a :| a in accounts[1..] && a.member == p.member && a.balance.balance < -Epsilon;
        assert a in accounts;
      }
    }
  }

  /** Every account below minus the tolerance becomes a debtor. */
  lemma {:induction false} DebtorsOfComplete(accounts: seq<Account>)
    ensures forall k :: 0 <= k < |accounts| && accounts[k].balance.balance < -Epsilon ==>
      Party(accounts[k].member, -accounts[k].balance.balance) in DebtorsOf(accounts)
  {
    if accounts != [] {
      DebtorsOfComplete(accounts[1..]);
      forall k | 1 <= k < |accounts| ensures accounts[k] == accounts[1..][k - 1] { }
    }
  }

  ghost predicate Descending(s: seq<Party>) {
    forall a, b :: 0 <= a < b < |s| ==> s[a].amount >= s[b].amount
  }

  /** Insert `x` in front of the first party it is at least as large as,
      so that it stays ahead of equal parties that came after it. */
  function Insert(x: Party, t: seq<Party>): (r: seq<Party>)
    ensures multiset(r) == multiset(t) + multiset{x}
  {
    if t == [] || x.amount >= t[0].amount then [x] + t
    else
      assert t == [t[0]] + t[1..];
      [t[0]] + Insert(x, t[1..])
  }

  lemma {:induction false} InsertDescending(x: Party, t: seq<Party>)
    requires Descending(t)
    ensures Descending(Insert(x, t))
  {
    if t != [] && x.amount < t[0].amount {
      var u := Insert(x, t[1..]);
      assert t == [t[0]] + t[1..];
      InsertDescending(x, t[1..]);
      InsertBelow(x, t[1..], t[0].amount);
      var r := [t[0]] + u;
      assert Insert(x, t) == r;
      forall a, b | 0 <= a < b < |r| ensures r[a].amount >= r[b].amount {
        if a > 0 {
          assert r[a] == u[a - 1] && r[b] == u[b - 1];
        } else {
          assert r[b] == u[b - 1];
        }
      }
    }
  }

  /** Inserting below a bound keeps every amount below it. */
  lemma InsertBelow(x: Party, t: seq<Party>, c: real)
    requires x.amount <= c && forall i :: 0 <= i < |t| ==> t[i].amount <= c
    ensures forall k :: 0 <= k < |Insert(x, t)| ==> Insert(x, t)[k].amount <= c
  {
    var u := Insert(x, t);
    forall k | 0 <= k < |u| ensures u[k].amount <= c {
      assert u[k] in multiset(u);
      assert u[k] == x || u[k] in t;
    }
  }

  /** `.sort((a, b) => b.amount - a.amount)`: a sort into descending
      order of amount (insertion before the first smaller-or-equal one). */
  function SortDescending(s: seq<Party>): (r: seq<Party>)
    ensures multiset(r) == multiset(s)
    ensures Descending(r)
  {
    if s == [] then []
    else
      assert s == [s[0]] + s[1..];
      InsertDescending(s[0], SortDescending(s[1..]));
      Insert(s[0], SortDescending(s[1..]))
  }

  function Creditors(accounts: seq<Account>): seq<Party> {
    SortDescending(CreditorsOf(accounts))
  }

  function Debtors(accounts: seq<Account>): seq<Party> {
    SortDescending(DebtorsOf(accounts))
  }

  function Min(a: real, b: real): (m: real)
    ensures m <= a && m <= b && (m == a || m == b)
  {
    if a <= b then a else b
  }

  /** `Math.round(x * 100) / 100`, where `Math.round(y)` is the floor of
      `y + 0.5`: a whole number of cents. */
  function Round2(x: real): (r: real)
    ensures (r * 100.0).Floor as real == r * 100.0
  {
    var cents := (x * 100.0 + 0.5).Floor;
    assert cents as real / 100.0 * 100.0 == cents as real;
    cents as real / 100.0
  }

  predicate Running(g: Greedy) {
    g.i < |g.creditors| && g.j < |g.debtors|
  }

  /** One round of the loop: settle the smaller of the two amounts, emit
      it rounded to cents if it exceeds the tolerance, and move past each
      side whose amount fell below the tolerance. */
  function Step(g: Greedy): (r: Greedy)
    requires Running(g)
    ensures |r.creditors| == |g.creditors| && |r.debtors| == |g.debtors|
    ensures g.i <= r.i <= g.i + 1 && g.j <= r.j <= g.j + 1
    ensures r.i + r.j > g.i + g.j
  {
    var creditor, debtor := g.creditors[g.i], g.debtors[g.j];
    var settleAmount := Min(creditor.amount, debtor.amount);
    var settlements :=
      if settleAmount > Epsilon
      then g.settlements + [Transfer(debtor.member, creditor.member, Round2(settleAmount))]
      else g.settlements;
    var creditors := g.creditors[g.i := Party(creditor.member, creditor.amount - settleAmount)];
    var debtors := g.debtors[g.j := Party(debtor.member, debtor.amount - settleAmount)];
    var i := if creditors[g.i].amount < Epsilon then g.i + 1 else g.i;
    var j := if debtors[g.j].amount < Epsilon then g.j + 1 else g.j;
    Greedy(creditors, debtors, i, j, settlements, g.moves + [Move(g.i, g.j, settleAmount)])
  }

  /** The loop run to completion: it stops once either list is used up. */
  function Run(g: Greedy): (r: Greedy)
    requires g.i <= |g.creditors| && g.j <= |g.debtors|
    ensures !Running(r)
    decreases |g.creditors| - g.i + |g.debtors| - g.j
  {
    if Running(g) then Run(Step(g)) else g
  }

  /** One more round of a running loop does not change where it ends. */
  lemma RunStep(g: Greedy)
    requires Running(g)
    ensures Run(g) == Run(Step(g))
  {
  }

  /** The state before the loop: it runs at all only when there is both
      a creditor and a debtor. */
  function Start(accounts: seq<Account>): (g: Greedy)
    ensures Running(g) <==> CreditorsOf(accounts) != [] && DebtorsOf(accounts) != []
  {
    assert |multiset(Creditors(accounts))| == |multiset(CreditorsOf(accounts))|;
    assert |multiset(Debtors(accounts))| == |multiset(DebtorsOf(accounts))|;
    Greedy(Creditors(accounts), Debtors(accounts), 0, 0, [], [])
  }

  /** The final state of `calculateSettlements(balances)`: one of the
      lists is used up, and without a creditor or a debtor nothing is
      paid. */
  function Plan(accounts: seq<Account>): (g: Greedy)
    ensures !Running(g)
    ensures CreditorsOf(accounts) == [] || DebtorsOf(accounts) == [] ==> g.settlements == []
  {
    Run(Start(accounts))
  }

  /** What the rounds credit to creditor `c`, before rounding. */
  function Received(moves: seq<Move>, c: nat): real {
    if moves == [] then 0.0
    else
      var m := moves[|moves| - 1];
      Received(moves[..|moves| - 1], c) + (if m.creditor == c then m.amount else 0.0)
  }

  /** What the rounds take from debtor `d`, before rounding. */
  function Sent(moves: seq<Move>, d: nat): real {
    if moves == [] then 0.0
    else
      var m := moves[|moves| - 1];
      Sent(moves[..|moves| - 1], d) + (if m.debtor == d then m.amount else 0.0)
  }

  ghost predicate ValidMoves(C: seq<Party>, D: seq<Party>, moves: seq<Move>) {
    forall m :: m in moves ==> m.creditor < |C| && m.debtor < |D| && m.amount >= Epsilon
  }

  /** The transfers the rounds `moves` emit. */
  function Emitted(C: seq<Party>, D: seq<Party>, moves: seq<Move>): (r: seq<Transfer>)
    requires forall m :: m in moves ==> m.creditor < |C| && m.debtor < |D|
    ensures |r| <= |moves|
  {
    if moves == [] then []
    else
      var m := moves[|moves| - 1];
      assert forall x :: x in moves[..|moves| - 1] ==> x in moves;
      Emitted(C, D, moves[..|moves| - 1])
        + (if m.amount > Epsilon then [Transfer(D[m.debtor].member, C[m.creditor].member, Round2(m.amount))] else [])
  }

  /** What the loop keeps true, against the sorted lists `C` and `D` it
      started from. */
  ghost predicate Inv(C: seq<Party>, D: seq<Party>, g: Greedy) {
    && |g.creditors| == |C| && |g.debtors| == |D| && g.i <= |C| && g.j <= |D|
    && (forall c :: 0 <= c < |C| ==>
          g.creditors[c].member == C[c].member && g.creditors[c].amount == C[c].amount - Received(g.moves, c))
    && (forall d :: 0 <= d < |D| ==>
          g.debtors[d].member == D[d].member && g.debtors[d].amount == D[d].amount - Sent(g.moves, d))
    && (forall c :: 0 <= c < g.i ==> 0.0 <= g.creditors[c].amount < Epsilon)
    && (forall c :: g.i <= c < |C| ==> g.creditors[c].amount >= Epsilon)
    && (forall d :: 0 <= d < g.j ==> 0.0 <= g.debtors[d].amount < Epsilon)
    && (forall d :: g.j <= d < |D| ==> g.debtors[d].amount >= Epsilon)
    && ValidMoves(C, D, g.moves)
    && |g.moves| <= g.i + g.j
    && (g.moves != [] ==> |g.moves| <= |C| + |D| - 1)
    && g.settlements == Emitted(C, D, g.moves)
  }

  lemma Round2Near(x: real)
    ensures x - 0.005 < Round2(x) <= x + 0.005
  {
    var y := x * 100.0 + 0.5;
    assert y.Floor as real <= y < y.Floor as real + 1.0;
  }

  /** An amount above the tolerance never rounds below one cent. */
  lemma Round2AboveTolerance(x: real)
    requires x > Epsilon
    ensures Round2(x) >= Epsilon
  {
    var y := x * 100.0 + 0.5;
    assert y.Floor as real > y - 1.0 > 0.5;
    assert y.Floor >= 1;
  }

  lemma {:induction false} ReceivedSnoc(moves: seq<Move>, m: Move, c: nat)
    ensures Received(moves + [m], c) == Received(moves, c) + (if m.creditor == c then m.amount else 0.0)
    ensures Sent(moves + [m], c) == Sent(moves, c) + (if m.debtor == c then m.amount else 0.0)
  {
    assert (moves + [m])[..|moves|] == moves;
  }

  /** Each emitted transfer pays at least a cent from some debtor of `D`
      to some creditor of `C`. */
  lemma {:induction false} EmittedSound(C: seq<Party>, D: seq<Party>, moves: seq<Move>)
    requires ValidMoves(C, D, moves)
    ensures forall t :: t in Emitted(C, D, moves) ==>
      t.amount >= Epsilon
      && (exists d :: 0 <= d < |D| && t.from == D[d].member)
      && (exists c :: 0 <= c < |C| && t.to == C[c].member)
  {
    if moves != [] {
      var m := moves[|moves| - 1];
      var init := moves[..|moves| - 1];
      assert forall x :: x in init ==> x in moves;
      EmittedSound(C, D, init);
      if m.amount > Epsilon {
        Round2AboveTolerance(m.amount);
        assert Emitted(C, D, moves) == Emitted(C, D, init) + [Transfer(D[m.debtor].member, C[m.creditor].member, Round2(m.amount))];
      }
    }
  }

  /** The sorted creditor list holds parties of `CreditorsOf` only. */
  lemma CreditorsFromAccounts(accounts: seq<Account>)
    ensures forall c :: 0 <= c < |Creditors(accounts)| ==>
      Creditors(accounts)[c].amount > Epsilon && IsCreditor(accounts, Creditors(accounts)[c].member)
    ensures |Creditors(accounts)| == |CreditorsOf(accounts)|
  {
    var C, P := Creditors(accounts), CreditorsOf(accounts);
    CreditorsOfSound(accounts);
    assert |multiset(C)| == |multiset(P)|;
    forall c | 0 <= c < |C| ensures C[c].amount > Epsilon && IsCreditor(accounts, C[c].member) {
      assert C[c] in multiset(P);
      assert C[c] in P;
    }
  }

  /** The sorted debtor list holds parties of `DebtorsOf` only. */
  lemma DebtorsFromAccounts(accounts: seq<Account>)
    ensures forall d :: 0 <= d < |Debtors(accounts)| ==>
      Debtors(accounts)[d].amount > Epsilon && IsDebtor(accounts, Debtors(accounts)[d].member)
    ensures |Debtors(accounts)| == |DebtorsOf(accounts)|
  {
    var D, P := Debtors(accounts), DebtorsOf(accounts);
    DebtorsOfSound(accounts);
    assert |multiset(D)| == |multiset(P)|;
    forall d | 0 <= d < |D| ensures D[d].amount > Epsilon && IsDebtor(accounts, D[d].member) {
      assert D[d] in multiset(P);
      assert D[d] in P;
    }
  }

  /** Before the first round nothing has moved and every party is above
      the tolerance. */
  lemma InitInv(C: seq<Party>, D: seq<Party>)
    requires forall c :: 0 <= c < |C| ==> C[c].amount > Epsilon
    requires forall d :: 0 <= d < |D| ==> D[d].amount > Epsilon
    ensures Inv(C, D, Greedy(C, D, 0, 0, [], []))
  {
  }

  lemma StartInv(accounts: seq<Account>)
    ensures Inv(Creditors(accounts), Debtors(accounts), Start(accounts))
  {
    CreditorsFromAccounts(accounts);
    DebtorsFromAccounts(accounts);
    InitInv(Creditors(accounts), Debtors(accounts));
  }

  /** A round keeps the creditor half of the invariant. */
  lemma StepCreditors(C: seq<Party>, D: seq<Party>, g: Greedy)
    requires Inv(C, D, g) && Running(g)
    ensures var r := Step(g);
      && (forall c :: 0 <= c < |C| ==>
            r.creditors[c].member == C[c].member && r.creditors[c].amount == C[c].amount - Received(r.moves, c))
      && (forall c :: 0 <= c < r.i ==> 0.0 <= r.creditors[c].amount < Epsilon)
      && (forall c :: r.i <= c < |C| ==> r.creditors[c].amount >= Epsilon)
  {
    var r := Step(g);
    var mv := Move(g.i, g.j, Min(g.creditors[g.i].amount, g.debtors[g.j].amount));
    assert r.moves == g.moves + [mv];
    forall c | 0 <= c < |C| ensures r.creditors[c].amount == C[c].amount - Received(r.moves, c) {
      ReceivedSnoc(g.moves, mv, c);
    }
  }

  /** A round keeps the debtor half of the invariant. */
  lemma StepDebtors(C: seq<Party>, D: seq<Party>, g: Greedy)
    requires Inv(C, D, g) && Running(g)
    ensures var r := Step(g);
      && (forall d :: 0 <= d < |D| ==>
            r.debtors[d].member == D[d].member && r.debtors[d].amount == D[d].amount - Sent(r.moves, d))
      && (forall d :: 0 <= d < r.j ==> 0.0 <= r.debtors[d].amount < Epsilon)
      && (forall d :: r.j <= d < |D| ==> r.debtors[d].amount >= Epsilon)
  {
    var r := Step(g);
    var mv := Move(g.i, g.j, Min(g.creditors[g.i].amount, g.debtors[g.j].amount));
    assert r.moves == g.moves + [mv];
    forall d | 0 <= d < |D| ensures r.debtors[d].amount == D[d].amount - Sent(r.moves, d) {
      ReceivedSnoc(g.moves, mv, d);
    }
  }

  /** A round keeps the rounds valid and the transfers those they emit. */
  lemma StepMoves(C: seq<Party>, D: seq<Party>, g: Greedy)
    requires Inv(C, D, g) && Running(g)
    ensures var r := Step(g);
      && ValidMoves(C, D, r.moves)
      && |r.moves| <= r.i + r.j
      && (r.moves != [] ==> |r.moves| <= |C| + |D| - 1)
      && r.settlements == Emitted(C, D, r.moves)
  {
    var r := Step(g);
    var mv := Move(g.i, g.j, Min(g.creditors[g.i].amount, g.debtors[g.j].amount));
    assert r.moves == g.moves + [mv];
    assert forall m :: m in r.moves ==> m in g.moves || m == mv;
    assert r.moves[..|r.moves| - 1] == g.moves;
  }

  lemma StepInv(C: seq<Party>, D: seq<Party>, g: Greedy)
    requires Inv(C, D, g) && Running(g)
    ensures Inv(C, D, Step(g))
  {
    StepCreditors(C, D, g);
    StepDebtors(C, D, g);
    StepMoves(C, D, g);
  }

  lemma {:induction false} RunInv(C: seq<Party>, D: seq<Party>, g: Greedy)
    requires Inv(C, D, g)
    ensures Inv(C, D, Run(g))
    decreases |g.creditors| - g.i + |g.debtors| - g.j
  {
    if Running(g) {
      StepInv(C, D, g);
      RunInv(C, D, Step(g));
    }
  }

  lemma {:induction false} MovesNonNegative(C: seq<Party>, D: seq<Party>, moves: seq<Move>, k: nat)
    requires ValidMoves(C, D, moves)
    ensures Received(moves, k) >= 0.0 && Sent(moves, k) >= 0.0
  {
    if moves != [] {
      var init := moves[..|moves| - 1];
      assert forall x :: x in init ==> x in moves;
      MovesNonNegative(C, D, init, k);
      assert moves[|moves| - 1] in moves;
    }
  }

  lemma PlanInv(accounts: seq<Account>)
    ensures Inv(Creditors(accounts), Debtors(accounts), Plan(accounts))
  {
    StartInv(accounts);
    RunInv(Creditors(accounts), Debtors(accounts), Start(accounts));
  }

  /** Every transfer of `calculateSettlements` pays at least a cent from
      a member whose balance is below minus the tolerance to a member
      whose balance is above it. */
  lemma PlanTransfers(accounts: seq<Account>)
    ensures forall t :: t in Plan(accounts).settlements ==>
      t.amount >= Epsilon && IsDebtor(accounts, t.from) && IsCreditor(accounts, t.to)
  {
    var g, C, D := Plan(accounts), Creditors(accounts), Debtors(accounts);
    PlanInv(accounts);
    EmittedSound(C, D, g.moves);
    CreditorsFromAccounts(accounts);
    DebtorsFromAccounts(accounts);
    forall t | t in g.settlements ensures IsDebtor(accounts, t.from) && IsCreditor(accounts, t.to) {
      var d :| 0 <= d < |D| && t.from == D[d].member;
      var c :| 0 <= c < |C| && t.to == C[c].member;
    }
  }

  /** Every round retires a creditor or a debtor, so there is at most one
      round fewer than creditors and debtors together, and at most one
      transfer per round. */
  lemma PlanRounds(accounts: seq<Account>)
    ensures var g := Plan(accounts);
      && |g.settlements| <= |g.moves|
      && (g.moves == [] || |g.moves| <= |CreditorsOf(accounts)| + |DebtorsOf(accounts)| - 1)
  {
    PlanBounds(accounts);
    CreditorsFromAccounts(accounts);
    DebtorsFromAccounts(accounts);
  }

  /** The round and transfer bounds, against the sorted lists. */
  lemma PlanBounds(accounts: seq<Account>)
    ensures var g := Plan(accounts);
      && |g.settlements| <= |g.moves|
      && (g.moves == [] || |g.moves| <= |Creditors(accounts)| + |Debtors(accounts)| - 1)
  {
    PlanInv(accounts);
    InvBounds(Creditors(accounts), Debtors(accounts), Plan(accounts));
  }

  lemma InvBounds(C: seq<Party>, D: seq<Party>, g: Greedy)
    requires Inv(C, D, g)
    ensures |g.settlements| <= |g.moves| && (g.moves == [] || |g.moves| <= |C| + |D| - 1)
  {
  }

  /** No creditor is credited more than its balance and no debtor charged
      more than its debt, counting the rounds before rounding. */
  lemma PlanConserves(accounts: seq<Account>)
    ensures var g, C, D := Plan(accounts), Creditors(accounts), Debtors(accounts);
      && (forall c :: 0 <= c < |C| ==> 0.0 <= Received(g.moves, c) <= C[c].amount)
      && (forall d :: 0 <= d < |D| ==> 0.0 <= Sent(g.moves, d) <= D[d].amount)
  {
    var g, C, D := Plan(accounts), Creditors(accounts), Debtors(accounts);
    PlanInv(accounts);
    forall c | 0 <= c < |C| ensures 0.0 <= Received(g.moves, c) <= C[c].amount {
      MovesNonNegative(C, D, g.moves, c);
      assert g.creditors[c].amount == C[c].amount - Received(g.moves, c);
      assert g.creditors[c].amount >= 0.0;
    }
    forall d | 0 <= d < |D| ensures 0.0 <= Sent(g.moves, d) <= D[d].amount {
      MovesNonNegative(C, D, g.moves, d);
      assert g.debtors[d].amount == D[d].amount - Sent(g.moves, d);
      assert g.debtors[d].amount >= 0.0;
    }
  }

  /** When the loop stops, every creditor or every debtor is within the
      tolerance of settled. */
  lemma PlanExhausts(accounts: seq<Account>)
    ensures var g, C, D := Plan(accounts), Creditors(accounts), Debtors(accounts);
      || (forall c :: 0 <= c < |C| ==> Received(g.moves, c) > C[c].amount - Epsilon)
      || (forall d :: 0 <= d < |D| ==> Sent(g.moves, d) > D[d].amount - Epsilon)
  {
    var g, C, D := Plan(accounts), Creditors(accounts), Debtors(accounts);
    PlanInv(accounts);
    if g.i == |C| {
      forall c | 0 <= c < |C| ensures Received(g.moves, c) > C[c].amount - Epsilon {
        assert g.creditors[c].amount == C[c].amount - Received(g.moves, c);
      }
    } else {
      forall d | 0 <= d < |D| ensures Sent(g.moves, d) > D[d].amount - Epsilon {
        assert g.debtors[d].amount == D[d].amount - Sent(g.moves, d);
      }
    }
  }

  /** `calculateSettlements(balances)`, the entries of `balances` given in
      the order `Object.entries` lists them. */
  method CalculateSettlements(accounts: seq<Account>) returns (settlements: seq<Transfer>)
    ensures settlements == Plan(accounts).settlements
    ensures forall t :: t in settlements ==>
      t.amount >= Epsilon && IsDebtor(accounts, t.from) && IsCreditor(accounts, t.to)
    ensures |settlements| <= |CreditorsOf(accounts)| + |DebtorsOf(accounts)|
  {
    settlements := Settle(Creditors(accounts), Debtors(accounts));
    PlanTransfers(accounts);
    PlanRounds(accounts);
  }

  /** The settling loop of `calculateSettlements` over the sorted lists. */
  method Settle(sortedCreditors: seq<Party>, sortedDebtors: seq<Party>) returns (settlements: seq<Transfer>)
    ensures settlements == Run(Greedy(sortedCreditors, sortedDebtors, 0, 0, [], [])).settlements
  {
    ghost var plan := Run(Greedy(sortedCreditors, sortedDebtors, 0, 0, [], []));
    var creditors, debtors := sortedCreditors, sortedDebtors;
    settlements := [];
    var i, j := 0, 0;
    ghost var moves: seq<Move> := [];
    while i < |creditors| && j < |debtors|
      invariant i <= |creditors| && j <= |debtors|
      invariant Run(Greedy(creditors, debtors, i, j, settlements, moves)) == plan
      decreases |creditors| - i + |debtors| - j
    {
      ghost var before := Greedy(creditors, debtors, i, j, settlements, moves);
      var creditor := creditors[i];
      var debtor := debtors[j];
      var settleAmount := Min(creditor.amount, debtor.amount);
      if settleAmount > Epsilon {
        settlements := settlements + [Transfer(debtor.member, creditor.member, Round2(settleAmount))];
      }
      creditors := creditors[i := Party(creditor.member, creditor.amount - settleAmount)];
      debtors := debtors[j := Party(debtor.member, debtor.amount - settleAmount)];
      moves := moves + [Move(i, j, settleAmount)];
      if creditors[i].amount < Epsilon { i := i + 1; }
      if debtors[j].amount < Epsilon { j := j + 1; }
      RunStep(before);
      assert Step(before) == Greedy(creditors, debtors, i, j, settlements, moves);
    }
  }

  // ---------------------------------------------------------------------
  // exportToExcel

  /** The text `split_type` holds. */
  function SplitTypeName(t: SplitType): string {
    match t
    case Equal => "equal"
    case Percentage => "percentage"
    case Weight => "weight"
    case Other(name) => name
  }

  /** `split_type || 'equal'`: a missing or empty split type counts as an
      equal split; any other one is kept. */
  function SplitTypeOrEqual(st: Option<SplitType>): (r: SplitType)
    ensures r != Other("")
    ensures st.None? || st == Some(Other("")) ==> r == Equal
    ensures st.Some? && st.value != Other("") ==> r == st.value
  {
    match st
    case None => Equal
    case Some(t) => if t == Other("") then Equal else t
  }

  /** `member:value` for every entry, in entry order. */
  function EntryTexts(host: Host, r: Record): (texts: seq<string>)
    ensures |texts| == |r|
    ensures forall k :: 0 <= k < |r| ==> texts[k] == r[k].key + ":" + host.formatNumber(r[k].value)
  {
    if r == [] then [] else [r[0].key + ":" + host.formatNumber(r[0].value)] + EntryTexts(host, r[1..])
  }

  /** The entries of a split-data object joined with commas. */
  function EncodeRecord(host: Host, r: Record): string {
    Join(EntryTexts(host, r), ",")
  }

  /** The 'Split Data' cell: empty for an equal split or without split
      data, the encoded entries otherwise. */
  function SplitDataText(host: Host, e: Expense): (text: string)
    ensures e.splitType == Some(Equal) || e.splitData.None? ==> text == ""
  {
    if e.splitType != Some(Equal) && e.splitData.Some? then EncodeRecord(host, e.splitData.value) else ""
  }

  /** The 'Expenses' row written for `e`; the amount cell holds the
      number, which reads back as the text `formatNumber` gives. */
  function ExpenseRow(host: Host, e: Expense): (row: Row)
    ensures row.isGift == Some(if e.isGift then "Yes" else "No")
    ensures row.splitType == Some(SplitTypeName(SplitTypeOrEqual(e.splitType)))
    ensures row.splitType != Some("")
    ensures row.date == Some(e.expenseDate) && row.paidBy == Some(e.paidBy) && row.notes == Some(e.notes)
  {
    Row(
      date := Some(e.expenseDate),
      paidBy := Some(e.paidBy),
      amount := Some(host.formatNumber(e.amount)),
      beneficiaries := Some(Join(e.beneficiaries, ", ")),
      isGift := Some(if e.isGift then "Yes" else "No"),
      giftTo := Some(Join(e.giftTo, ", ")),
      splitType := Some(SplitTypeName(SplitTypeOrEqual(e.splitType))),
      splitData := Some(SplitDataText(host, e)),
      notes := Some(e.notes))
  }
}
