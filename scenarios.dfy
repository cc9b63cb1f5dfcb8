/** The sample trip of src/lib/test-calculations.ts, worked through the
    balance accumulator and the settlement planner: four members, a
    hotel split four ways, a lunch for three, a joint treat and a gift. */
module Scenarios {
  import opened Options
  import opened Records
  import opened Seqs
  import opened Settlement
  import opened BalanceProperties

  const Roster: seq<string> := ["Alice", "Bob", "Charlie", "Diana"]

  const Hotel := Expense("1", "2024-01-01", "Alice", 10000.0, ["Alice", "Bob", "Charlie", "Diana"],
                         false, [], None, None, None, "Hotel booking")
  const Lunch := Expense("2", "2024-01-02", "Bob", 2000.0, ["Alice", "Bob", "Charlie"],
                         false, [], None, None, None, "Lunch for 3")
  const JointTreat := Expense("3", "2024-01-03", "Alice", 2600.0, ["Alice", "Bob"],
                              false, [], Some([Entry("Alice", 1600.0), Entry("Bob", 1000.0)]), None, None,
                              "Joint treat - Alice 1600, Bob 1000")
  const Gift := Expense("4", "2024-01-04", "Charlie", 500.0, [], true, ["Diana"], None, None, None, "Gift for Diana")

  const Sample: seq<Expense> := [Hotel, Lunch, JointTreat, Gift]

  /** The four names differ (they differ in their first letter). */
  lemma NamesDiffer()
    ensures "Alice" != "Bob" && "Alice" != "Charlie" && "Alice" != "Diana"
    ensures "Bob" != "Charlie" && "Bob" != "Diana" && "Charlie" != "Diana"
  {
    assert "Alice"[0] == 'A' && "Bob"[0] == 'B' && "Charlie"[0] == 'C' && "Diana"[0] == 'D';
  }

  /** Charging one more listing. */
  lemma ChargesSnoc(e: Expense, listed: seq<string>, b: string, m: string)
    requires |e.beneficiaries| > 0
    ensures ChargesTo(e, listed + [b], m) == ChargesTo(e, listed, m) + (if b == m then Charge(e, m) else 0.0)
  {
    assert (listed + [b])[..|listed|] == listed;
  }

  /** Crediting one more sponsor entry. */
  lemma CreditSnoc(shares: Record, x: Entry, m: string)
    ensures SponsorCredit(shares + [x], m) == SponsorCredit(shares, m) + (if x.key == m && x.value > 0.0 then x.value else 0.0)
  {
    assert (shares + [x])[..|shares|] == shares;
  }

  /** The hotel: Alice pays 10000, everyone owes 2500. */
  lemma HotelShares(m: string)
    requires m in Roster
    ensures PaidShare(Hotel, m) == if m == "Alice" then 10000.0 else 0.0
    ensures OwedShare(Hotel, m) == 2500.0
  {
    NamesDiffer();
    var e := Hotel;
    assert Charge(e, m) == 2500.0;
    assert [] + ["Alice"] == ["Alice"] && ["Alice"] + ["Bob"] == ["Alice", "Bob"];
    assert ["Alice", "Bob"] + ["Charlie"] == ["Alice", "Bob", "Charlie"];
    assert ["Alice", "Bob", "Charlie"] + ["Diana"] == e.beneficiaries;
    ChargesSnoc(e, [], "Alice", m);
    ChargesSnoc(e, ["Alice"], "Bob", m);
    ChargesSnoc(e, ["Alice", "Bob"], "Charlie", m);
    ChargesSnoc(e, ["Alice", "Bob", "Charlie"], "Diana", m);
  }

  /** The lunch: Bob pays 2000, Alice, Bob and Charlie owe a third each. */
  lemma LunchShares(m: string)
    requires m in Roster
    ensures PaidShare(Lunch, m) == if m == "Bob" then 2000.0 else 0.0
    ensures OwedShare(Lunch, m) == if m == "Diana" then 0.0 else 2000.0 / 3.0
  {
    NamesDiffer();
    var e := Lunch;
    assert Charge(e, m) == 2000.0 / 3.0;
    assert [] + ["Alice"] == ["Alice"] && ["Alice"] + ["Bob"] == ["Alice", "Bob"];
    assert ["Alice", "Bob"] + ["Charlie"] == e.beneficiaries;
    ChargesSnoc(e, [], "Alice", m);
    ChargesSnoc(e, ["Alice"], "Bob", m);
    ChargesSnoc(e, ["Alice", "Bob"], "Charlie", m);
  }

  /** The joint treat: Alice is credited 1600 and Bob 1000 (not Alice
      2600), and each owes 1300. */
  lemma JointTreatShares(m: string)
    requires m in Roster
    ensures PaidShare(JointTreat, m) == if m == "Alice" then 1600.0 else if m == "Bob" then 1000.0 else 0.0
    ensures OwedShare(JointTreat, m) == if m == "Alice" || m == "Bob" then 1300.0 else 0.0
  {
    NamesDiffer();
    var e := JointTreat;
    assert HasJointShares(e);
    assert [] + [Entry("Alice", 1600.0)] == [Entry("Alice", 1600.0)];
    CreditSnoc([], Entry("Alice", 1600.0), m);
    CreditSnoc([Entry("Alice", 1600.0)], Entry("Bob", 1000.0), m);
    assert [Entry("Alice", 1600.0)] + [Entry("Bob", 1000.0)] == e.jointTreatShares.value;
    assert Charge(e, m) == 1300.0;
    assert [] + ["Alice"] == ["Alice"] && ["Alice"] + ["Bob"] == e.beneficiaries;
    ChargesSnoc(e, [], "Alice", m);
    ChargesSnoc(e, ["Alice"], "Bob", m);
  }

  /** The gift: Charlie is credited 500 and nobody owes anything. */
  lemma GiftShares(m: string)
    requires m in Roster
    ensures PaidShare(Gift, m) == if m == "Charlie" then 500.0 else 0.0
    ensures OwedShare(Gift, m) == 0.0
  {
  }

  /** The fold over the four expenses, written out. */
  lemma SampleTotals(m: string)
    ensures TotalPaid(Sample, m) ==
      PaidShare(Hotel, m) + PaidShare(Lunch, m) + PaidShare(JointTreat, m) + PaidShare(Gift, m)
    ensures TotalOwed(Sample, m) ==
      OwedShare(Hotel, m) + OwedShare(Lunch, m) + OwedShare(JointTreat, m) + OwedShare(Gift, m)
  {
    assert Sample[..3] == [Hotel, Lunch, JointTreat];
    assert [Hotel, Lunch, JointTreat][..2] == [Hotel, Lunch];
    assert [Hotel, Lunch][..1] == [Hotel];
    assert [Hotel][..0] == [];
    assert TotalPaid([Hotel], m) == PaidShare(Hotel, m);
    assert TotalOwed([Hotel], m) == OwedShare(Hotel, m);
    assert TotalPaid([Hotel, Lunch], m) == TotalPaid([Hotel], m) + PaidShare(Lunch, m);
    assert TotalOwed([Hotel, Lunch], m) == TotalOwed([Hotel], m) + OwedShare(Lunch, m);
    assert TotalPaid([Hotel, Lunch, JointTreat], m) == TotalPaid([Hotel, Lunch], m) + PaidShare(JointTreat, m);
    assert TotalOwed([Hotel, Lunch, JointTreat], m) == TotalOwed([Hotel, Lunch], m) + OwedShare(JointTreat, m);
  }

  /** The balances of the sample trip. */
  lemma SampleBalances()
    ensures FinalBalance(Sample, "Alice") == MemberBalance(11600.0, 13400.0 / 3.0, 21400.0 / 3.0)
    ensures FinalBalance(Sample, "Bob") == MemberBalance(3000.0, 13400.0 / 3.0, -4400.0 / 3.0)
    ensures FinalBalance(Sample, "Charlie") == MemberBalance(500.0, 9500.0 / 3.0, -8000.0 / 3.0)
    ensures FinalBalance(Sample, "Diana") == MemberBalance(0.0, 2500.0, -2500.0)
  {
    forall m | m in Roster
      ensures TotalPaid(Sample, m) ==
        PaidShare(Hotel, m) + PaidShare(Lunch, m) + PaidShare(JointTreat, m) + PaidShare(Gift, m)
      ensures TotalOwed(Sample, m) ==
        OwedShare(Hotel, m) + OwedShare(Lunch, m) + OwedShare(JointTreat, m) + OwedShare(Gift, m)
    {
      SampleTotals(m);
      HotelShares(m);
      LunchShares(m);
      JointTreatShares(m);
      GiftShares(m);
    }
    HotelShares("Alice"); LunchShares("Alice"); JointTreatShares("Alice"); GiftShares("Alice");
    HotelShares("Bob"); LunchShares("Bob"); JointTreatShares("Bob"); GiftShares("Bob");
    HotelShares("Charlie"); LunchShares("Charlie"); JointTreatShares("Charlie"); GiftShares("Charlie");
    HotelShares("Diana"); LunchShares("Diana"); JointTreatShares("Diana"); GiftShares("Diana");
  }

  lemma RosterNoDup()
    ensures NoDup(Roster)
  {
  }

  /** The harness's first check holds for this data: the members' `paid`
      totals add up to the 15100 spent. */
  lemma SamplePaidConserved()
    ensures Sum(Roster, PaidAfter(Sample)) == Sum(Sample, AmountOf()) == 15100.0
  {
    RosterNoDup();
    SinglePayerFullyCredited(Hotel, Roster);
    SinglePayerFullyCredited(Lunch, Roster);
    SinglePayerFullyCredited(Gift, Roster);
    var shares := JointTreat.jointTreatShares.value;
    assert shares[..1] == [Entry("Alice", 1600.0)] && shares[..1][..0] == [];
    assert Sum(shares, ShareValue()) == 2600.0;
    JointFullyCredited(JointTreat, Roster);
    PaidConserved(Sample, Roster);
    assert Sample[..3] == [Hotel, Lunch, JointTreat];
    assert Sample[..3][..2] == [Hotel, Lunch];
    assert Sample[..3][..2][..1] == [Hotel];
    assert [Hotel][..0] == [];
    var f := AmountOf();
    assert Sum([Hotel], f) == 10000.0;
    assert Sum([Hotel, Lunch], f) == 12000.0;
    assert Sum([Hotel, Lunch, JointTreat], f) == 14600.0;
  }

  /** The harness's second check does NOT hold for this data: the gift
      leaves its 500 as surplus, so the balances sum to 500, not 0. */
  lemma SampleBalancesSumToGift()
    ensures Sum(Roster, BalanceAfter(Sample)) == 500.0
  {
    SampleBalances();
    assert Roster[..3] == ["Alice", "Bob", "Charlie"];
    assert Roster[..3][..2] == ["Alice", "Bob"];
    assert Roster[..3][..2][..1] == ["Alice"];
    assert ["Alice"][..0] == [];
  }

  /** `Object.entries(balances)` for the sample, in roster order. */
  function SampleAccounts(): seq<Account> {
    [ Account("Alice", MemberBalance(11600.0, 13400.0 / 3.0, 21400.0 / 3.0)),
      Account("Bob", MemberBalance(3000.0, 13400.0 / 3.0, -4400.0 / 3.0)),
      Account("Charlie", MemberBalance(500.0, 9500.0 / 3.0, -8000.0 / 3.0)),
      Account("Diana", MemberBalance(0.0, 2500.0, -2500.0)) ]
  }

  /** Filtering one more account. */
  lemma PartiesCons(x: Account, rest: seq<Account>)
    ensures CreditorsOf([x] + rest) ==
      (if x.balance.balance > Epsilon then [Party(x.member, x.balance.balance)] else []) + CreditorsOf(rest)
    ensures DebtorsOf([x] + rest) ==
      (if x.balance.balance < -Epsilon then [Party(x.member, -x.balance.balance)] else []) + DebtorsOf(rest)
  {
    assert ([x] + rest)[0] == x && ([x] + rest)[1..] == rest;
  }

  /** Sorting one more party. */
  lemma SortCons(x: Party, rest: seq<Party>)
    ensures SortDescending([x] + rest) == Insert(x, SortDescending(rest))
  {
    assert ([x] + rest)[0] == x && ([x] + rest)[1..] == rest;
  }

  /** Inserting below a larger party. */
  lemma InsertBelowFirst(x: Party, y: Party, rest: seq<Party>)
    requires x.amount < y.amount
    ensures Insert(x, [y] + rest) == [y] + Insert(x, rest)
  {
    assert ([y] + rest)[0] == y && ([y] + rest)[1..] == rest;
  }

  const AliceOwed := Party("Alice", 21400.0 / 3.0)
  const BobOwes := Party("Bob", 4400.0 / 3.0)
  const CharlieOwes := Party("Charlie", 8000.0 / 3.0)
  const DianaOwes := Party("Diana", 2500.0)

  /** Alice is the only account above the tolerance. */
  lemma SampleCreditorsOf()
    ensures CreditorsOf(SampleAccounts()) == [AliceOwed]
  {
    var a := SampleAccounts();
    assert a == [a[0]] + ([a[1]] + ([a[2]] + ([a[3]] + [])));
    PartiesCons(a[3], []);
    PartiesCons(a[2], [a[3]]);
    PartiesCons(a[1], [a[2]] + [a[3]]);
    PartiesCons(a[0], [a[1]] + ([a[2]] + [a[3]]));
  }

  /** Bob, Charlie and Diana owe, in roster order. */
  lemma SampleDebtorsOf()
    ensures DebtorsOf(SampleAccounts()) == [BobOwes, CharlieOwes, DianaOwes]
  {
    var a := SampleAccounts();
    assert a == [a[0]] + ([a[1]] + ([a[2]] + ([a[3]] + [])));
    PartiesCons(a[3], []);
    PartiesCons(a[2], [a[3]]);
    PartiesCons(a[1], [a[2]] + [a[3]]);
    PartiesCons(a[0], [a[1]] + ([a[2]] + [a[3]]));
  }

  lemma SortSingle(x: Party)
    ensures SortDescending([x]) == [x]
  {
    SortCons(x, []);
  }

  lemma InsertCharlie()
    ensures Insert(CharlieOwes, [DianaOwes]) == [CharlieOwes, DianaOwes]
  {
  }

  lemma InsertBob()
    ensures Insert(BobOwes, [CharlieOwes, DianaOwes]) == [CharlieOwes, DianaOwes, BobOwes]
  {
    InsertBelowFirst(BobOwes, CharlieOwes, [DianaOwes]);
    InsertBelowFirst(BobOwes, DianaOwes, []);
    assert Insert(BobOwes, []) == [BobOwes];
  }

  /** Sorting moves Bob, the smallest debt, to the end. */
  lemma SortSampleDebtors()
    ensures SortDescending([BobOwes, CharlieOwes, DianaOwes]) == [CharlieOwes, DianaOwes, BobOwes]
  {
    SortSingle(DianaOwes);
    SortCons(CharlieOwes, [DianaOwes]);
    InsertCharlie();
    SortCons(BobOwes, [CharlieOwes, DianaOwes]);
    assert [BobOwes] + [CharlieOwes, DianaOwes] == [BobOwes, CharlieOwes, DianaOwes];
    InsertBob();
  }

  /** Alice is the only creditor; the debtors, largest first, are
      Charlie, Diana and Bob. */
  lemma SampleParties()
    ensures Creditors(SampleAccounts()) == [AliceOwed]
    ensures Debtors(SampleAccounts()) == [CharlieOwes, DianaOwes, BobOwes]
  {
    SampleCreditorsOf();
    SortSingle(AliceOwed);
    SampleDebtorsOf();
    SortSampleDebtors();
  }

  /** Alice receives Charlie's debt first. */
  lemma SampleRound1()
    ensures Step(Greedy([AliceOwed], [CharlieOwes, DianaOwes, BobOwes], 0, 0, [], [])) ==
      Greedy([Party("Alice", 13400.0 / 3.0)], [Party("Charlie", 0.0), DianaOwes, BobOwes], 0, 1,
             [Transfer("Charlie", "Alice", 2666.67)], [Move(0, 0, 8000.0 / 3.0)])
  {
    RoundThirds();
  }

  /** Then Diana's. */
  lemma SampleRound2(t: seq<Transfer>, ms: seq<Move>)
    ensures Step(Greedy([Party("Alice", 13400.0 / 3.0)], [Party("Charlie", 0.0), DianaOwes, BobOwes], 0, 1, t, ms)) ==
      Greedy([Party("Alice", 5900.0 / 3.0)], [Party("Charlie", 0.0), Party("Diana", 0.0), BobOwes], 0, 2,
             t + [Transfer("Diana", "Alice", 2500.0)], ms + [Move(0, 1, 2500.0)])
  {
    RoundThirds();
  }

  /** Then Bob's, which leaves Alice exactly square. */
  lemma SampleRound3(t: seq<Transfer>, ms: seq<Move>)
    ensures Step(Greedy([Party("Alice", 5900.0 / 3.0)], [Party("Charlie", 0.0), Party("Diana", 0.0), BobOwes], 0, 2, t, ms)) ==
      Greedy([Party("Alice", 500.0)], [Party("Charlie", 0.0), Party("Diana", 0.0), Party("Bob", 0.0)], 0, 3,
             t + [Transfer("Bob", "Alice", 1466.67)], ms + [Move(0, 2, 4400.0 / 3.0)])
  {
    RoundThirds();
  }

  /** The settlement plan for the sample: everyone pays Alice, largest
      debt first, amounts rounded to cents. Alice is left 500 short of
      her balance, which is the gift's surplus. */
  lemma SampleSettlements()
    ensures Plan(SampleAccounts()).settlements ==
      [ Transfer("Charlie", "Alice", 2666.67),
        Transfer("Diana", "Alice", 2500.0),
        Transfer("Bob", "Alice", 1466.67) ]
  {
    SampleStart();
    SampleRun();
  }

  lemma SampleStart()
    ensures Start(SampleAccounts()) == Greedy([AliceOwed], [CharlieOwes, DianaOwes, BobOwes], 0, 0, [], [])
  {
    SampleParties();
  }

  /** The three rounds of the loop on the sorted sample parties. */
  lemma SampleRun()
    ensures Run(Greedy([AliceOwed], [CharlieOwes, DianaOwes, BobOwes], 0, 0, [], [])).settlements ==
      [ Transfer("Charlie", "Alice", 2666.67),
        Transfer("Diana", "Alice", 2500.0),
        Transfer("Bob", "Alice", 1466.67) ]
  {
    var g0 := Greedy([AliceOwed], [CharlieOwes, DianaOwes, BobOwes], 0, 0, [], []);
    var g1 := Greedy([Party("Alice", 13400.0 / 3.0)], [Party("Charlie", 0.0), DianaOwes, BobOwes], 0, 1,
                     [Transfer("Charlie", "Alice", 2666.67)], [Move(0, 0, 8000.0 / 3.0)]);
    var g2 := Greedy([Party("Alice", 5900.0 / 3.0)], [Party("Charlie", 0.0), Party("Diana", 0.0), BobOwes], 0, 2,
                     g1.settlements + [Transfer("Diana", "Alice", 2500.0)], g1.moves + [Move(0, 1, 2500.0)]);
    var g3 := Greedy([Party("Alice", 500.0)], [Party("Charlie", 0.0), Party("Diana", 0.0), Party("Bob", 0.0)], 0, 3,
                     g2.settlements + [Transfer("Bob", "Alice", 1466.67)], g2.moves + [Move(0, 2, 4400.0 / 3.0)]);
    SampleRound1();
    RunStep(g0);
    SampleRound2(g1.settlements, g1.moves);
    RunStep(g1);
    SampleRound3(g2.settlements, g2.moves);
    RunStep(g2);
    assert Run(g3) == g3;
  }

  /** The roundings the plan needs. */
  lemma RoundThirds()
    ensures Round2(8000.0 / 3.0) == 2666.67
    ensures Round2(2500.0) == 2500.0
    ensures Round2(4400.0 / 3.0) == 1466.67
  {
    assert (8000.0 / 3.0 * 100.0 + 0.5).Floor == 266667;
    assert (2500.0 * 100.0 + 0.5).Floor == 250000;
    assert (4400.0 / 3.0 * 100.0 + 0.5).Floor == 146667;
  }

  /** Two creditors and two debtors whose amounts match exactly. */
  function MatchedAccounts(): seq<Account> {
    [ Account("A", MemberBalance(0.0, 0.0, 30.0)), Account("B", MemberBalance(0.0, 0.0, 20.0)),
      Account("C", MemberBalance(0.0, 0.0, -20.0)), Account("D", MemberBalance(0.0, 0.0, -30.0)) ]
  }

  lemma MatchedParties()
    ensures CreditorsOf(MatchedAccounts()) == [Party("A", 30.0), Party("B", 20.0)]
    ensures DebtorsOf(MatchedAccounts()) == [Party("C", 20.0), Party("D", 30.0)]
  {
    var a := MatchedAccounts();
    assert a == [a[0]] + ([a[1]] + ([a[2]] + ([a[3]] + [])));
    PartiesCons(a[3], []);
    PartiesCons(a[2], [a[3]]);
    PartiesCons(a[1], [a[2]] + [a[3]]);
    PartiesCons(a[0], [a[1]] + ([a[2]] + [a[3]]));
  }

  lemma MatchedSorted()
    ensures SortDescending([Party("A", 30.0), Party("B", 20.0)]) == [Party("A", 30.0), Party("B", 20.0)]
    ensures SortDescending([Party("C", 20.0), Party("D", 30.0)]) == [Party("D", 30.0), Party("C", 20.0)]
  {
    MatchedCreditorsSorted();
    MatchedDebtorsSorted();
  }

  lemma MatchedCreditorsSorted()
    ensures SortDescending([Party("A", 30.0), Party("B", 20.0)]) == [Party("A", 30.0), Party("B", 20.0)]
  {
    SortSingle(Party("B", 20.0));
    SortCons(Party("A", 30.0), [Party("B", 20.0)]);
  }

  lemma MatchedDebtorsSorted()
    ensures SortDescending([Party("C", 20.0), Party("D", 30.0)]) == [Party("D", 30.0), Party("C", 20.0)]
  {
    SortSingle(Party("D", 30.0));
    SortCons(Party("C", 20.0), [Party("D", 30.0)]);
    InsertBelowFirst(Party("C", 20.0), Party("D", 30.0), []);
    assert Insert(Party("C", 20.0), []) == [Party("C", 20.0)];
  }

  /** Matching amounts settle in two transfers, largest pair first, with
      no redundant splitting of a debt. */
  lemma ExactMatchesTwoTransfers()
    ensures Plan(MatchedAccounts()).settlements == [Transfer("D", "A", 30.0), Transfer("C", "B", 20.0)]
  {
    MatchedParties();
    MatchedSorted();
    var C := [Party("A", 30.0), Party("B", 20.0)];
    var D := [Party("D", 30.0), Party("C", 20.0)];
    var g0 := Greedy(C, D, 0, 0, [], []);
    assert Start(MatchedAccounts()) == g0;
    MatchedRun();
  }

  lemma MatchedRun()
    ensures Run(Greedy([Party("A", 30.0), Party("B", 20.0)], [Party("D", 30.0), Party("C", 20.0)], 0, 0, [], [])).settlements
      == [Transfer("D", "A", 30.0), Transfer("C", "B", 20.0)]
  {
    var g0 := Greedy([Party("A", 30.0), Party("B", 20.0)], [Party("D", 30.0), Party("C", 20.0)], 0, 0, [], []);
    assert (30.0 * 100.0 + 0.5).Floor == 3000;
    assert (20.0 * 100.0 + 0.5).Floor == 2000;
    var g1 := Greedy([Party("A", 0.0), Party("B", 20.0)], [Party("D", 0.0), Party("C", 20.0)], 1, 1,
                     [Transfer("D", "A", 30.0)], [Move(0, 0, 30.0)]);
    assert Step(g0) == g1;
    RunStep(g0);
    var g2 := Greedy([Party("A", 0.0), Party("B", 0.0)], [Party("D", 0.0), Party("C", 0.0)], 2, 2,
                     [Transfer("D", "A", 30.0), Transfer("C", "B", 20.0)], [Move(0, 0, 30.0), Move(1, 1, 20.0)]);
    assert Step(g1) == g2;
    RunStep(g1);
    assert Run(g2) == g2;
  }
}
