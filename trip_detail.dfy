/** The trip page (src/pages/TripDetail.tsx): the transforms applied to
    stored rows when they are loaded, and the simplified summary
    `calculateSummary`, which credits the payer the full amount and splits
    every expense equally, ignoring joint sponsors and split types. */
module TripDetail {
  import opened Options
  import opened Settlement

  /** A JSON value as the database returns it; only strings and arrays
      matter to the transforms. */
  datatype Json = JString(text: string) | JArray(items: seq<Json>) | JOther

  /** `items.filter(x => typeof x === 'string')`. */
  function StringsOf(items: seq<Json>): (r: seq<string>)
    ensures |r| <= |items|
    ensures forall s :: s in r <==> JString(s) in items
  {
    if items == [] then []
    else
      var rest := StringsOf(items[1..]);
      assert forall x :: x in items <==> x == items[0] || x in items[1..];
      if items[0].JString? then [items[0].text] + rest else rest
  }

  /** `Array.isArray(v) ? v.filter(...) : []`. */
  function StringItems(v: Json): (r: seq<string>)
    ensures !v.JArray? ==> r == []
  {
    if v.JArray? then StringsOf(v.items) else []
  }

  /** The JSON array a list of names is stored as. */
  function Stored(names: seq<string>): (v: seq<Json>)
    ensures |v| == |names|
    ensures forall i :: 0 <= i < |names| ==> v[i] == JString(names[i])
  {
    if names == [] then [] else [JString(names[0])] + Stored(names[1..])
  }

  /** The filter keeps the strings in order: it splits over concatenation... */
  lemma {:induction false} StringsOfAppend(a: seq<Json>, b: seq<Json>)
    ensures StringsOf(a + b) == StringsOf(a) + StringsOf(b)
  {
    if a != [] {
      assert (a + b)[0] == a[0] && (a + b)[1..] == a[1..] + b;
      StringsOfAppend(a[1..], b);
    } else {
      assert a + b == b;
    }
  }

  /** ... and a stored list of names loads back unchanged. */
  lemma {:induction false} StoredNamesLoad(names: seq<string>)
    ensures StringItems(JArray(Stored(names))) == names
  {
    if names != [] {
      StoredNamesLoad(names[1..]);
      assert Stored(names)[1..] == Stored(names[1..]);
    }
  }

  /** The trip page's own expense record. */
  datatype TripExpense = TripExpense(
    id: string, expenseDate: string, paidBy: string, amount: real,
    beneficiaries: seq<string>, isGift: bool, giftTo: seq<string>, notes: string)

  /** An expense row as stored. */
  datatype StoredExpense = StoredExpense(
    id: string, expenseDate: string, paidBy: string, amount: real,
    beneficiaries: Json, isGift: bool, giftTo: Json, notes: Option<string>)

  /** The transform in `fetchTripData`. */
  function LoadExpense(row: StoredExpense): (e: TripExpense)
    ensures e.beneficiaries == StringItems(row.beneficiaries) && e.giftTo == StringItems(row.giftTo)
    ensures e.notes == row.notes.GetOr("")
    ensures e.paidBy == row.paidBy && e.amount == row.amount && e.isGift == row.isGift
  {
    TripExpense(row.id, row.expenseDate, row.paidBy, row.amount,
                StringItems(row.beneficiaries), row.isGift, StringItems(row.giftTo), row.notes.GetOr(""))
  }

  // ---------------------------------------------------------------------
  // calculateSummary

  datatype Totals = Totals(paid: real, owes: real)

  datatype Summary = Summary(totalExpenses: real, memberBalances: map<string, Totals>)

  /** `share` for every listing of `m`. */
  function SharesTo(listed: seq<string>, m: string, share: real): (r: real)
    ensures m !in listed ==> r == 0.0
  {
    if listed == [] then 0.0
    else SharesTo(listed[..|listed| - 1], m, share) + (if listed[|listed| - 1] == m then share else 0.0)
  }

  /** The sum of all amounts, whoever paid. */
  function TotalAmount(es: seq<TripExpense>): real {
    if es == [] then 0.0 else TotalAmount(es[..|es| - 1]) + es[|es| - 1].amount
  }

  /** What the summary credits `m`: the full amount of every expense `m`
      paid. */
  function PaidBy(es: seq<TripExpense>, m: string): real {
    if es == [] then 0.0
    else
      var e := es[|es| - 1];
      PaidBy(es[..|es| - 1], m) + (if e.paidBy == m then e.amount else 0.0)
  }

  /** What one expense charges `m`: an equal share per listing, nothing
      for a gift or an empty list. */
  function ShareOf(e: TripExpense, m: string): real {
    if e.isGift || |e.beneficiaries| == 0 then 0.0
    else SharesTo(e.beneficiaries, m, e.amount / |e.beneficiaries| as real)
  }

  function OwedBy(es: seq<TripExpense>, m: string): real {
    if es == [] then 0.0 else OwedBy(es[..|es| - 1], m) + ShareOf(es[|es| - 1], m)
  }

  method CalculateSummary(trip: Option<seq<string>>, expenses: seq<TripExpense>) returns (s: Summary)
    ensures trip.None? ==> s == Summary(0.0, map[])
    ensures trip.Some? ==> s.memberBalances.Keys == set m | m in trip.value
    ensures trip.Some? ==> s.totalExpenses == TotalAmount(expenses)
    ensures trip.Some? ==> forall m :: m in s.memberBalances ==>
              s.memberBalances[m] == Totals(PaidBy(expenses, m), OwedBy(expenses, m))
  {
    if trip.None? {
      return Summary(0.0, map[]);
    }
    var members := trip.value;
    var balances := StartBalances(members);
    var total := 0.0;
    for k := 0 to |expenses|
      invariant balances.Keys == set m | m in members
      invariant total == TotalAmount(expenses[..k])
      invariant forall m :: m in balances ==> balances[m] == Totals(PaidBy(expenses[..k], m), OwedBy(expenses[..k], m))
    {
      var e := expenses[k];
      assert expenses[..k + 1][..k] == expenses[..k];
      total := total + e.amount;
      if e.paidBy in balances {
        balances := balances[e.paidBy := balances[e.paidBy].(paid := balances[e.paidBy].paid + e.amount)];
      }
      if !e.isGift && |e.beneficiaries| > 0 {
        var sharePerPerson := e.amount / |e.beneficiaries| as real;
        balances := ChargeShares(balances, e.beneficiaries, sharePerPerson);
      }
    }
    assert expenses[..|expenses|] == expenses;
    s := Summary(total, balances);
  }

  /** `trip.members.forEach(m => memberBalances[m] = { paid: 0, owes: 0 })`. */
  method StartBalances(members: seq<string>) returns (balances: map<string, Totals>)
    ensures balances.Keys == set m | m in members
    ensures forall m :: m in balances ==> balances[m] == Totals(0.0, 0.0)
  {
    balances := map[];
    for k := 0 to |members|
      invariant balances.Keys == set m | m in members[..k]
      invariant forall m :: m in balances ==> balances[m] == Totals(0.0, 0.0)
    {
      assert members[..k + 1] == members[..k] + [members[k]];
      balances := balances[members[k] := Totals(0.0, 0.0)];
    }
    assert members[..|members|] == members;
  }

  /** `beneficiaries.forEach(b => if (memberBalances[b]) ... += share)`. */
  method ChargeShares(balances0: map<string, Totals>, listed: seq<string>, share: real)
    returns (balances: map<string, Totals>)
    ensures balances.Keys == balances0.Keys
    ensures forall m :: m in balances ==>
              balances[m] == balances0[m].(owes := balances0[m].owes + SharesTo(listed, m, share))
  {
    balances := balances0;
    for j := 0 to |listed|
      invariant balances.Keys == balances0.Keys
      invariant forall m :: m in balances ==>
                  balances[m] == balances0[m].(owes := balances0[m].owes + SharesTo(listed[..j], m, share))
    {
      assert listed[..j + 1][..j] == listed[..j];
      var b := listed[j];
      if b in balances {
        balances := balances[b := balances[b].(owes := balances[b].owes + share)];
      }
    }
    assert listed[..|listed|] == listed;
  }

  // ---------------------------------------------------------------------
  // Agreement with the engine

  /** The trip-page expense as the engine sees it: no joint sponsors and
      no split type. */
  function AsEngine(e: TripExpense): Expense {
    Expense(e.id, e.expenseDate, e.paidBy, e.amount, e.beneficiaries, e.isGift, e.giftTo,
            None, None, None, e.notes)
  }

  function AllAsEngine(es: seq<TripExpense>): (r: seq<Expense>)
    ensures |r| == |es|
    ensures forall i :: 0 <= i < |es| ==> r[i] == AsEngine(es[i])
  {
    seq(|es|, i requires 0 <= i < |es| => AsEngine(es[i]))
  }

  /** An equal split charges each listing the same share. */
  lemma {:induction false} EqualChargesTo(e: Expense, listed: seq<string>, m: string)
    requires |e.beneficiaries| > 0 && !SplitsByPercentage(e) && !SplitsByWeight(e)
    ensures ChargesTo(e, listed, m) == SharesTo(listed, m, e.amount / |e.beneficiaries| as real)
  {
    if listed != [] {
      EqualChargesTo(e, listed[..|listed| - 1], m);
    }
  }

  /** The summary is the engine's balance for expenses without sponsors
      or split types: the same `paid` and the same `owes` for every
      name. */
  lemma {:induction false} SummaryAgreesWithEngine(es: seq<TripExpense>, m: string)
    ensures PaidBy(es, m) == TotalPaid(AllAsEngine(es), m)
    ensures OwedBy(es, m) == TotalOwed(AllAsEngine(es), m)
  {
    if es != [] {
      var init, e := es[..|es| - 1], es[|es| - 1];
      SummaryAgreesWithEngine(init, m);
      assert AllAsEngine(es)[..|es| - 1] == AllAsEngine(init);
      if !e.isGift && |e.beneficiaries| > 0 {
        EqualChargesTo(AsEngine(e), e.beneficiaries, m);
      }
    }
  }

  /** Every amount counts towards the total, also those paid by someone
      outside the roster: the total is what the named payers are credited
      plus the rest. */
  lemma {:induction false} TotalSplitsByPayer(es: seq<TripExpense>, m: string)
    ensures TotalAmount(es) == PaidBy(es, m) + TotalAmount(PaidByOthers(es, m))
  {
    if es != [] {
      var init := es[..|es| - 1];
      TotalSplitsByPayer(init, m);
      var others := PaidByOthers(init, m);
      if es[|es| - 1].paidBy != m {
        assert (others + [es[|es| - 1]])[..|others|] == others;
      }
    }
  }

  /** The expenses not paid by `m`. */
  function PaidByOthers(es: seq<TripExpense>, m: string): (r: seq<TripExpense>)
    ensures forall e :: e in r ==> e in es && e.paidBy != m
  {
    if es == [] then []
    else
      var r := PaidByOthers(es[..|es| - 1], m);
      var e := es[|es| - 1];
      assert forall x :: x in es[..|es| - 1] ==> x in es;
      if e.paidBy != m then r + [e] else r
  }
}
