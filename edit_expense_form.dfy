/** The expense editing form (src/components/expense/EditExpenseForm.tsx):
    when it may be submitted, the record it hands to `onUpdate`, and how its
    switches, checkboxes and select-all buttons change its state. */
module EditExpenseForm {
  import opened Options
  import opened Records
  import opened Seqs
  import opened Settlement
  import opened BalanceProperties
  import ExcelTemplate

  /** The values held by the form library: the fields the user edits. */
  datatype FormValues = FormValues(
    expenseDate: string,
    paidBy: string,
    amount: real,
    beneficiaries: seq<string>,
    isGift: bool,
    giftTo: seq<string>,
    notes: string)

  // ---------------------------------------------------------------------
  // Submit gating

  /** `beneficiaries.reduce((sum, m) => sum + (splitData[m] || 0), 0)`. */
  function PercentTotal(sd: Record, bs: seq<string>): real {
    if bs == [] then 0.0 else PercentTotal(sd, bs[..|bs| - 1]) + PercentOf(sd, bs[|bs| - 1])
  }

  /** `validateSplitData`: a percentage split must total 100 to within the
      tolerance; any other split type passes. */
  function ValidateSplitData(st: SplitType, bs: seq<string>, sd: Record): (ok: bool)
    ensures st != Percentage ==> ok
    ensures st == Percentage ==> (ok <==> 100.0 - Epsilon < PercentTotal(sd, bs) < 100.0 + Epsilon)
  {
    if st == Percentage then ExcelTemplate.Abs(PercentTotal(sd, bs) - 100.0) < Epsilon else true
  }

  /** `canSubmit`: a gift needs a recipient; anything else needs a
      beneficiary and a valid percentage split. */
  function CanSubmit(isGift: bool, giftTo: seq<string>, bs: seq<string>, st: SplitType, sd: Record): (ok: bool)
    ensures isGift ==> (ok <==> giftTo != [])
    ensures !isGift ==> (ok <==> bs != [] && (st == Percentage ==> 100.0 - Epsilon < PercentTotal(sd, bs) < 100.0 + Epsilon))
  {
    if isGift then |giftTo| > 0
    else |bs| > 0 && (st != Percentage || ValidateSplitData(st, bs, sd))
  }

  /** The schema the form library checks before calling `handleSubmit`:
      someone paid, and the amount is at least 0.01. */
  predicate SchemaAccepts(v: FormValues) {
    |v.paidBy| >= 1 && v.amount >= 0.01
  }

  /** `handleSubmit`'s `finalData`, with the id it is passed alongside:
      the form's fields, the switch's gift flag, the sponsor shares only
      while joint treat is on, no split for a gift and no split data for
      an equal split. */
  function Payload(id: string, v: FormValues, isGift: bool, isJointTreat: bool, shares: Record,
                   st: SplitType, sd: Record): (e: Expense)
    ensures e.id == id && e.expenseDate == v.expenseDate && e.paidBy == v.paidBy && e.amount == v.amount
    ensures e.beneficiaries == v.beneficiaries && e.giftTo == v.giftTo && e.notes == v.notes
    ensures e.isGift == isGift
    ensures e.jointTreatShares.Some? <==> isJointTreat
    ensures isJointTreat ==> e.jointTreatShares == Some(shares)
    ensures isGift ==> e.splitType.None? && e.splitData.None?
    ensures !isGift ==> e.splitType == Some(st)
    ensures e.splitData.Some? <==> !isGift && st != Equal
    ensures e.splitData.Some? ==> e.splitData == Some(sd)
  {
    Expense(id, v.expenseDate, v.paidBy, v.amount, v.beneficiaries, isGift, v.giftTo,
            if isJointTreat then Some(shares) else None,
            if isGift then None else Some(st),
            if isGift || st == Equal then None else Some(sd),
            v.notes)
  }

  /** Pressing "Update Expense": nothing unless the button is enabled and
      the schema accepts the fields, else the payload. */
  function Submit(id: string, v: FormValues, isGift: bool, isJointTreat: bool, shares: Record,
                  st: SplitType, sd: Record): (r: Option<Expense>)
    ensures r.Some? <==> CanSubmit(isGift, v.giftTo, v.beneficiaries, st, sd) && SchemaAccepts(v)
    ensures r.Some? ==> r.value == Payload(id, v, isGift, isJointTreat, shares, st, sd)
  {
    if CanSubmit(isGift, v.giftTo, v.beneficiaries, st, sd) && SchemaAccepts(v)
    then Some(Payload(id, v, isGift, isJointTreat, shares, st, sd))
    else None
  }

  /** The form's percentage total is the engine's percentage sum when
      every beneficiary is on the roster. */
  lemma {:induction false} PercentTotalOnRoster(sd: Record, bs: seq<string>, roster: seq<string>)
    requires forall b :: b in bs ==> b in roster
    ensures Sum(bs, RosterPercent(sd, roster)) == PercentTotal(sd, bs)
  {
    if bs != [] {
      assert forall b :: b in bs[..|bs| - 1] ==> b in bs;
      PercentTotalOnRoster(sd, bs[..|bs| - 1], roster);
      assert bs[|bs| - 1] in bs;
    }
  }

  /** A positive factor keeps a strict order. */
  lemma MulLess(c: real, d: real, e: real)
    requires c > 0.0 && d < e
    ensures c * d < c * e
  {
    assert c * e - c * d == c * (e - d);
  }

  /** Scaling a percentage total within the tolerance of 100: `x` is
      the amount `a` spread by percentages `s`, which total `t`. */
  lemma WithinTolerance(x: real, a: real, s: real, t: real)
    requires a > 0.0 && 100.0 - Epsilon < t < 100.0 + Epsilon
    requires x == a / 100.0 * s && s == t
    ensures ExcelTemplate.Abs(x - a) < a / 100.0 * Epsilon
  {
    var c, d := a / 100.0, t - 100.0;
    assert x - a == c * d by {
      assert a == c * 100.0;
      assert c * t - c * 100.0 == c * (t - 100.0);
    }
    MulLess(c, d, Epsilon);
    MulLess(c, -Epsilon, d);
    assert c * -Epsilon == -(c * Epsilon);
  }

  /** A percentage expense whose listed percentages total 100 to within
      the tolerance charges a roster holding every beneficiary the amount,
      to within 0.01 per cent of it. */
  lemma PercentExpenseWithinTolerance(e: Expense, roster: seq<string>)
    requires !e.isGift && |e.beneficiaries| > 0 && SplitsByPercentage(e) && e.amount > 0.0
    requires 100.0 - Epsilon < PercentTotal(e.splitData.value, e.beneficiaries) < 100.0 + Epsilon
    requires NoDup(roster) && forall b :: b in e.beneficiaries ==> b in roster
    ensures ExcelTemplate.Abs(Sum(roster, OwedOf(e)) - e.amount) < e.amount / 100.0 * Epsilon
  {
    PercentageCharges(e, roster, e.amount / 100.0);
    PercentTotalOnRoster(e.splitData.value, e.beneficiaries, roster);
    WithinTolerance(Sum(roster, OwedOf(e)), e.amount, Sum(e.beneficiaries, RosterPercent(e.splitData.value, roster)),
                    PercentTotal(e.splitData.value, e.beneficiaries));
  }

  /** What the percentage check buys: a submitted percentage split whose
      beneficiaries are all on a roster with no repeated names makes the
      balance engine charge the roster the amount, to within 0.01 per cent
      of it. */
  lemma SubmittedPercentageSplit(id: string, v: FormValues, isJointTreat: bool, shares: Record, sd: Record,
                                 roster: seq<string>)
    requires Submit(id, v, false, isJointTreat, shares, Percentage, sd).Some?
    requires NoDup(roster) && forall b :: b in v.beneficiaries ==> b in roster
    ensures ExcelTemplate.Abs(Sum(roster, OwedOf(Payload(id, v, false, isJointTreat, shares, Percentage, sd))) - v.amount)
            < v.amount / 100.0 * Epsilon
  {
    var e := Payload(id, v, false, isJointTreat, shares, Percentage, sd);
    assert e.splitData == Some(sd) && e.beneficiaries == v.beneficiaries && e.amount == v.amount;
    PercentExpenseWithinTolerance(e, roster);
  }

  // ---------------------------------------------------------------------
  // Checkboxes and select-all

  /** `toggleBeneficiary` / `toggleGiftRecipient`: checking appends the
      member, unchecking removes every occurrence. */
  function Toggled(list: seq<string>, m: string, checked: bool): (r: seq<string>)
    ensures m in r <==> checked
    ensures forall y :: y != m ==> (y in r <==> y in list)
    ensures checked ==> |r| == |list| + 1 && r[..|list|] == list && r[|list|] == m
    ensures !checked ==> |r| <= |list| && (m !in list ==> r == list)
  {
    if checked then list + [m] else RemoveAll(list, m)
  }

  lemma {:induction false} RemoveAllAppended(list: seq<string>, m: string)
    ensures RemoveAll(list + [m], m) == RemoveAll(list, m)
  {
    if list != [] {
      assert (list + [m])[1..] == list[1..] + [m];
      RemoveAllAppended(list[1..], m);
    } else {
      assert [m][1..] == [];
    }
  }

  /** Unchecking undoes checking: a member that was not selected leaves
      the list exactly as it was, order included. */
  lemma {:induction false} ToggleUndo(list: seq<string>, m: string)
    ensures Toggled(Toggled(list, m, true), m, false) == RemoveAll(list, m)
    ensures m !in list ==> Toggled(Toggled(list, m, true), m, false) == list
  {
    RemoveAllAppended(list, m);
  }

  /** `members.every(m => current.includes(m))`. */
  predicate AllSelected(members: seq<string>, current: seq<string>) {
    forall m :: m in members ==> m in current
  }

  /** The select-all button: deselect everything when every member is
      selected, otherwise select the whole roster. */
  function SelectAll(members: seq<string>, current: seq<string>): (r: seq<string>)
    ensures AllSelected(members, current) ==> r == []
    ensures !AllSelected(members, current) ==> r == members
  {
    if AllSelected(members, current) then [] else members
  }

  /** With a non-empty roster the button flips between its two labels:
      after a press every member is selected exactly when they were not
      all selected before. */
  lemma SelectAllFlips(members: seq<string>, current: seq<string>)
    requires members != []
    ensures AllSelected(members, SelectAll(members, current)) <==> !AllSelected(members, current)
  {
    if AllSelected(members, current) {
      assert members[0] in members && members[0] !in SelectAll(members, current);
    }
  }

  // ---------------------------------------------------------------------
  // The form's state

  class Form {
    const expenseId: string
    const members: seq<string>
    var values: FormValues
    var isGift: bool
    var isJointTreat: bool
    var jointShares: Record
    var splitType: SplitType
    var splitData: Record

    /** The two copies of the gift flag, the switch's and the form
        library's, agree. */
    predicate Valid()
      reads this
    {
      isGift == values.isGift
    }

    constructor (expense: Expense, members: seq<string>)
      ensures expenseId == expense.id && this.members == members
      ensures values == FormValues(expense.expenseDate, expense.paidBy, expense.amount, expense.beneficiaries,
                                   expense.isGift, expense.giftTo, expense.notes)
      ensures isGift == expense.isGift
      ensures isJointTreat == expense.jointTreatShares.Some?
      ensures jointShares == expense.jointTreatShares.GetOr([])
      ensures splitType == SplitTypeOrEqual(expense.splitType)
      ensures splitData == expense.splitData.GetOr([])
      ensures Valid()
    {
      expenseId := expense.id;
      this.members := members;
      values := FormValues(expense.expenseDate, expense.paidBy, expense.amount, expense.beneficiaries,
                           expense.isGift, expense.giftTo, expense.notes);
      isGift := expense.isGift;
      isJointTreat := expense.jointTreatShares.Some?;
      jointShares := expense.jointTreatShares.GetOr([]);
      splitType := SplitTypeOrEqual(expense.splitType);
      splitData := expense.splitData.GetOr([]);
    }

    /** What pressing "Update Expense" hands to `onUpdate` now. */
    function Submission(): (r: Option<Expense>)
      reads this
      ensures r.Some? <==> CanSubmit(isGift, values.giftTo, values.beneficiaries, splitType, splitData) && SchemaAccepts(values)
      ensures r.Some? ==> r.value.id == expenseId && r.value.isGift == isGift && r.value.beneficiaries == values.beneficiaries
    {
      Submit(expenseId, values, isGift, isJointTreat, jointShares, splitType, splitData)
    }

    method ToggleBeneficiary(m: string, checked: bool)
      modifies this
      ensures values == old(values).(beneficiaries := Toggled(old(values.beneficiaries), m, checked))
      ensures isGift == old(isGift) && isJointTreat == old(isJointTreat) && jointShares == old(jointShares)
      ensures splitType == old(splitType) && splitData == old(splitData)
      ensures old(Valid()) ==> Valid()
    {
      var current := values.beneficiaries;
      if checked {
        values := values.(beneficiaries := current + [m]);
      } else {
        values := values.(beneficiaries := RemoveAll(current, m));
      }
    }

    method ToggleGiftRecipient(m: string, checked: bool)
      modifies this
      ensures values == old(values).(giftTo := Toggled(old(values.giftTo), m, checked))
      ensures isGift == old(isGift) && isJointTreat == old(isJointTreat) && jointShares == old(jointShares)
      ensures splitType == old(splitType) && splitData == old(splitData)
      ensures old(Valid()) ==> Valid()
    {
      var current := values.giftTo;
      if checked {
        values := values.(giftTo := current + [m]);
      } else {
        values := values.(giftTo := RemoveAll(current, m));
      }
    }

    /** `updateJointShare`: the member's share is set, other shares kept. */
    method UpdateJointShare(m: string, share: real)
      modifies this
      ensures jointShares == Put(old(jointShares), m, share)
      ensures Lookup(jointShares, m) == Some(share)
      ensures forall k :: k != m ==> Lookup(jointShares, k) == Lookup(old(jointShares), k)
      ensures values == old(values) && isGift == old(isGift) && isJointTreat == old(isJointTreat)
      ensures splitType == old(splitType) && splitData == old(splitData)
    {
      jointShares := Put(jointShares, m, share);
    }

    /** `updateSplitData`: the member's percentage or weight is set. */
    method UpdateSplitData(m: string, value: real)
      modifies this
      ensures splitData == Put(old(splitData), m, value)
      ensures Lookup(splitData, m) == Some(value)
      ensures forall k :: k != m ==> Lookup(splitData, k) == Lookup(old(splitData), k)
      ensures values == old(values) && isGift == old(isGift) && isJointTreat == old(isJointTreat)
      ensures jointShares == old(jointShares) && splitType == old(splitType)
    {
      splitData := Put(splitData, m, value);
    }

    /** The gift switch: on clears the beneficiaries and the split, off
        clears the recipients. */
    method SetGift(checked: bool)
      modifies this
      ensures isGift == checked && values.isGift == checked
      ensures checked ==> values == old(values).(isGift := true, beneficiaries := [])
                          && splitType == Equal && splitData == []
      ensures !checked ==> values == old(values).(isGift := false, giftTo := [])
                           && splitType == old(splitType) && splitData == old(splitData)
      ensures isJointTreat == old(isJointTreat) && jointShares == old(jointShares)
      ensures Valid()
    {
      isGift := checked;
      values := values.(isGift := checked);
      if checked {
        values := values.(beneficiaries := []);
        splitType := Equal;
        splitData := [];
      } else {
        values := values.(giftTo := []);
      }
    }

    /** The joint-treat switch: off clears the sponsor shares. */
    method SetJointTreat(checked: bool)
      modifies this
      ensures isJointTreat == checked
      ensures jointShares == if checked then old(jointShares) else []
      ensures values == old(values) && isGift == old(isGift)
      ensures splitType == old(splitType) && splitData == old(splitData)
    {
      isJointTreat := checked;
      if !checked {
        jointShares := [];
      }
    }

    /** Choosing a split type in the select; choosing equal clears the
        split data. */
    method SetSplitType(v: SplitType)
      requires !v.Other?
      modifies this
      ensures splitType == v
      ensures splitData == if v == Equal then [] else old(splitData)
      ensures values == old(values) && isGift == old(isGift)
      ensures isJointTreat == old(isJointTreat) && jointShares == old(jointShares)
    {
      splitType := v;
      if v == Equal {
        splitData := [];
      }
    }

    method SelectAllGiftTo()
      modifies this
      ensures values == old(values).(giftTo := SelectAll(members, old(values.giftTo)))
      ensures isGift == old(isGift) && isJointTreat == old(isJointTreat) && jointShares == old(jointShares)
      ensures splitType == old(splitType) && splitData == old(splitData)
      ensures old(Valid()) ==> Valid()
    {
      var allSelected := AllSelected(members, values.giftTo);
      if allSelected {
        values := values.(giftTo := []);
      } else {
        values := values.(giftTo := members);
      }
    }

    method SelectAllBeneficiaries()
      modifies this
      ensures values == old(values).(beneficiaries := SelectAll(members, old(values.beneficiaries)))
      ensures isGift == old(isGift) && isJointTreat == old(isJointTreat) && jointShares == old(jointShares)
      ensures splitType == old(splitType) && splitData == old(splitData)
      ensures old(Valid()) ==> Valid()
    {
      var allSelected := AllSelected(members, values.beneficiaries);
      if allSelected {
        values := values.(beneficiaries := []);
      } else {
        values := values.(beneficiaries := members);
      }
    }
  }

  /** Turning gift on then submitting sends no beneficiaries and no split:
      the engine charges nobody for it. */
  lemma GiftFormChargesNobody(id: string, v: FormValues, isJointTreat: bool, shares: Record,
                              st: SplitType, sd: Record, m: string)
    ensures OwedShare(Payload(id, v, true, isJointTreat, shares, st, sd), m) == 0.0
    ensures Payload(id, v, true, isJointTreat, shares, st, sd).splitType.None?
  {
  }
}
