/** `validateExcelData` (src/lib/excel-template.ts): the row checks run
    on an imported 'Expenses' sheet before anything is saved. */
module ExcelTemplate {
  import opened Options
  import opened Text
  import opened Runtime
  import opened Sheet

  /** What a row check can complain about. */
  datatype Kind =
    | DateRequired
    | PaidByRequired
    | AmountRequired
    | GiftToRequired
    | BeneficiariesIgnored
    | BeneficiariesRequired
    | InvalidSplitType
    | PercentNot100(total: real)
    | InvalidDate

  /** One error or warning. Every message except the empty-sheet one
      names its 1-based row. */
  datatype Issue = NoData | AtRow(row: nat, kind: Kind)

  datatype Validation = Validation(isValid: bool, errors: seq<Issue>, warnings: seq<Issue>)

  /** The text the source pushes for each issue. */
  function Message(host: Host, i: Issue): string {
    match i
    case NoData => "No data found in Excel file"
    case AtRow(n, k) =>
      "Row " + NatToString(n) + ": " +
      match k
      case DateRequired => "Date is required"
      case PaidByRequired => "Paid By is required"
      case AmountRequired => "Valid amount is required"
      case GiftToRequired => "Gift To is required for gifts"
      case BeneficiariesIgnored => "Beneficiaries ignored for gifts"
      case BeneficiariesRequired => "Beneficiaries required for regular expenses"
      case InvalidSplitType => "Invalid split type. Use: equal, percentage, or weight"
      case PercentNot100(t) => "Percentage split must total 100% (currently " + host.formatNumber(t) + "%)"
      case InvalidDate => "Invalid date format. Use YYYY-MM-DD"
  }

  function Abs(x: real): real {
    if x < 0.0 then -x else x
  }

  /** `const [, value] = pair.split(':'); parseFloat(value) || 0`: the
      text after the first ':' up to the next one, 0 when there is no ':'
      or the text is not a number. */
  function PairValue(host: Host, pair: string): real {
    var pieces := Split(pair, ':');
    if |pieces| >= 2 then NumberOrZero(host, pieces[1]) else 0.0
  }

  /** The percentages of the pieces, summed in order. */
  function PercentTotal(host: Host, pairs: seq<string>): real {
    if pairs == [] then 0.0 else PercentTotal(host, pairs[..|pairs| - 1]) + PairValue(host, pairs[|pairs| - 1])
  }

  predicate KnownSplitType(t: string) {
    t == "equal" || t == "percentage" || t == "weight"
  }

  predicate AmountOk(host: Host, row: Row) {
    Filled(row.amount) && host.parseFloat(row.amount.value).Some?
  }

  /** The percentage check applies: the split type is 'percentage'
      ignoring case and Split Data is filled. */
  predicate ChecksPercent(row: Row) {
    LowerCell(row.splitType) == Some("percentage") && Filled(row.splitData)
  }

  function RowTotal(host: Host, row: Row): real
    requires ChecksPercent(row)
  {
    PercentTotal(host, Split(row.splitData.value, ','))
  }

  predicate BadSplitType(row: Row) {
    Filled(LowerCell(row.splitType)) && !KnownSplitType(LowerCell(row.splitType).value)
  }

  predicate BadPercent(host: Host, row: Row) {
    ChecksPercent(row) && Abs(RowTotal(host, row) - 100.0) > 0.01
  }

  /** One test the source makes on a row, and the error it pushes when
      the test fails. */
  datatype Check = Check(failed: bool, issue: Issue)

  /** 'Required fields validation'. */
  function RequiredChecks(host: Host, n: nat, row: Row): seq<Check> {
    [ Check(!Filled(row.date), AtRow(n, DateRequired)),
      Check(!Filled(row.paidBy), AtRow(n, PaidByRequired)),
      Check(!AmountOk(host, row), AtRow(n, AmountRequired)) ]
  }

  /** 'Gift validation': only one of the two tests can fail, depending on
      whether the row is a gift. */
  function GiftChecks(n: nat, row: Row): seq<Check> {
    var gift := IsGiftCell(row.isGift);
    [ Check(gift && !Filled(row.giftTo), AtRow(n, GiftToRequired)),
      Check(!gift && !Filled(row.beneficiaries), AtRow(n, BeneficiariesRequired)) ]
  }

  /** 'Split type validation' and 'Split data validation for percentage'. */
  function SplitChecks(host: Host, n: nat, row: Row): seq<Check> {
    [ Check(BadSplitType(row), AtRow(n, InvalidSplitType)),
      Check(BadPercent(host, row), AtRow(n, PercentNot100(if ChecksPercent(row) then RowTotal(host, row) else 0.0))) ]
  }

  /** 'Date validation'. */
  function DateChecks(host: Host, n: nat, row: Row): seq<Check> {
    [ Check(Filled(row.date) && !host.dateParses(row.date.value), AtRow(n, InvalidDate)) ]
  }

  /** The tests on row `n`, in the order the source makes them. */
  function ChecksOf(host: Host, n: nat, row: Row): (cs: seq<Check>)
    ensures |cs| == 8
  {
    RequiredChecks(host, n, row) + GiftChecks(n, row) + SplitChecks(host, n, row) + DateChecks(host, n, row)
  }

  /** The errors of the failed tests, in order. */
  function Failures(cs: seq<Check>): seq<Issue> {
    if cs == [] then []
    else if cs[|cs| - 1].failed then Failures(cs[..|cs| - 1]) + [cs[|cs| - 1].issue]
    else Failures(cs[..|cs| - 1])
  }

  lemma {:induction false} FailuresAppend(a: seq<Check>, b: seq<Check>)
    ensures Failures(a + b) == Failures(a) + Failures(b)
  {
    if b == [] {
      assert a + b == a;
    } else {
      var init := b[..|b| - 1];
      assert (a + b)[..|a + b| - 1] == a + init;
      FailuresAppend(a, init);
    }
  }

  /** The errors of row `n`. */
  function RowErrors(host: Host, n: nat, row: Row): seq<Issue> {
    Failures(ChecksOf(host, n, row))
  }

  /** The warnings of row `n`: only a gift with beneficiaries has one. */
  function RowWarnings(n: nat, row: Row): (r: seq<Issue>)
    ensures r == [] || r == [AtRow(n, BeneficiariesIgnored)]
  {
    if IsGiftCell(row.isGift) && Filled(row.beneficiaries) then [AtRow(n, BeneficiariesIgnored)] else []
  }

  /** The errors of all rows, row after row. */
  function ErrorsOf(host: Host, rows: seq<Row>): seq<Issue> {
    if rows == [] then []
    else ErrorsOf(host, rows[..|rows| - 1]) + RowErrors(host, |rows|, rows[|rows| - 1])
  }

  function WarningsOf(rows: seq<Row>): seq<Issue> {
    if rows == [] then []
    else WarningsOf(rows[..|rows| - 1]) + RowWarnings(|rows|, rows[|rows| - 1])
  }

  /** What `validateExcelData` returns; `None` stands for a missing
      `data` argument. */
  function Validate(host: Host, data: Option<seq<Row>>): (v: Validation)
    ensures v.isValid <==> v.errors == []
  {
    if data.None? || data.value == [] then Validation(false, [NoData], [])
    else
      var errors := ErrorsOf(host, data.value);
      Validation(errors == [], errors, WarningsOf(data.value))
  }

  /** The inner `forEach` over the Split Data pieces. */
  method SumPercentages(host: Host, pairs: seq<string>) returns (total: real)
    ensures total == PercentTotal(host, pairs)
  {
    total := 0.0;
    for k := 0 to |pairs|
      invariant total == PercentTotal(host, pairs[..k])
    {
      assert pairs[..k + 1][..k] == pairs[..k];
      total := total + PairValue(host, pairs[k]);
    }
    assert pairs[..|pairs|] == pairs;
  }

  method CheckRequired(host: Host, n: nat, row: Row) returns (errors: seq<Issue>)
    ensures errors == Failures(RequiredChecks(host, n, row))
  {
    ghost var cs := RequiredChecks(host, n, row);
    assert cs[..1][..0] == [] && cs[..2][..1] == cs[..1] && cs[..3] == cs;
    errors := [];
    if !Filled(row.date) { errors := errors + [AtRow(n, DateRequired)]; }
    assert errors == Failures(cs[..1]);
    if !Filled(row.paidBy) { errors := errors + [AtRow(n, PaidByRequired)]; }
    assert errors == Failures(cs[..2]);
    if !AmountOk(host, row) { errors := errors + [AtRow(n, AmountRequired)]; }
  }

  method CheckGift(n: nat, row: Row) returns (errors: seq<Issue>, warnings: seq<Issue>)
    ensures errors == Failures(GiftChecks(n, row))
    ensures warnings == RowWarnings(n, row)
  {
    ghost var cs := GiftChecks(n, row);
    assert cs[..1][..0] == [] && cs[..2] == cs;
    errors, warnings := [], [];
    var isGift := IsGiftCell(row.isGift);
    if isGift {
      if !Filled(row.giftTo) { errors := errors + [AtRow(n, GiftToRequired)]; }
      assert errors == Failures(cs[..1]) && !cs[1].failed;
      if Filled(row.beneficiaries) { warnings := warnings + [AtRow(n, BeneficiariesIgnored)]; }
    } else {
      assert Failures(cs[..1]) == [];
      if !Filled(row.beneficiaries) { errors := errors + [AtRow(n, BeneficiariesRequired)]; }
    }
  }

  method CheckSplit(host: Host, n: nat, row: Row) returns (errors: seq<Issue>)
    ensures errors == Failures(SplitChecks(host, n, row))
  {
    ghost var cs := SplitChecks(host, n, row);
    assert cs[..1][..0] == [] && cs[..2] == cs;
    errors := [];
    var splitType := LowerCell(row.splitType);
    if Filled(splitType) && !KnownSplitType(splitType.value) {
      errors := errors + [AtRow(n, InvalidSplitType)];
    }
    assert errors == Failures(cs[..1]);
    if splitType == Some("percentage") && Filled(row.splitData) {
      var total := SumPercentages(host, Split(row.splitData.value, ','));
      if Abs(total - 100.0) > 0.01 {
        errors := errors + [AtRow(n, PercentNot100(total))];
      }
    }
  }

  /** The body of the outer `forEach` for row `n`: what it pushes onto
      `errors` and onto `warnings`, block by block. */
  method CheckRow(host: Host, n: nat, row: Row) returns (errors: seq<Issue>, warnings: seq<Issue>)
    ensures errors == RowErrors(host, n, row)
    ensures warnings == RowWarnings(n, row)
  {
    var required := CheckRequired(host, n, row);
    var gift, giftWarnings := CheckGift(n, row);
    var split := CheckSplit(host, n, row);
    var date := [];
    if Filled(row.date) && !host.dateParses(row.date.value) {
      date := [AtRow(n, InvalidDate)];
    }
    assert date == Failures(DateChecks(host, n, row));
    errors, warnings := required + gift + split + date, giftWarnings;
    var r, g, s, d := RequiredChecks(host, n, row), GiftChecks(n, row), SplitChecks(host, n, row), DateChecks(host, n, row);
    FailuresAppend(r, g);
    FailuresAppend(r + g, s);
    FailuresAppend(r + g + s, d);
  }

  method ValidateExcelData(host: Host, data: Option<seq<Row>>) returns (v: Validation)
    ensures v == Validate(host, data)
    ensures v.isValid <==> v.errors == []
  {
    if data.None? || data.value == [] {
      return Validation(false, [NoData], []);
    }
    var rows := data.value;
    var errors, warnings := [], [];
    var k := 0;
    while k < |rows|
      invariant k <= |rows|
      invariant errors == ErrorsOf(host, rows[..k])
      invariant warnings == WarningsOf(rows[..k])
    {
      assert rows[..k + 1][..k] == rows[..k];
      var rowErrors, rowWarnings := CheckRow(host, k + 1, rows[k]);
      errors, warnings := errors + rowErrors, warnings + rowWarnings;
      k := k + 1;
    }
    assert rows[..|rows|] == rows;
    v := Validation(|errors| == 0, errors, warnings);
  }

  // ---------------------------------------------------------------------
  // Properties

  /** Empty or missing data: exactly the one error, no warnings, invalid,
      whatever the host. */
  lemma NoDataResult(host: Host, data: Option<seq<Row>>)
    requires data.None? || data.value == []
    ensures Validate(host, data) == Validation(false, [NoData], [])
  {
  }

  /** A failed test's error is reported, a passed test's is not, when no
      other test pushes the same error. */
  lemma {:induction false} FailedIn(cs: seq<Check>, k: nat)
    requires k < |cs|
    requires forall j :: 0 <= j < |cs| && j != k ==> cs[j].issue != cs[k].issue
    ensures cs[k].issue in Failures(cs) <==> cs[k].failed
  {
    var init := cs[..|cs| - 1];
    if k < |cs| - 1 {
      assert forall j :: 0 <= j < |init| && j != k ==> init[j].issue != init[k].issue by {
        forall j | 0 <= j < |init| && j != k ensures init[j].issue != init[k].issue {
          assert init[j] == cs[j];
        }
      }
      FailedIn(init, k);
    } else {
      FailuresLack(init, cs[k].issue);
    }
  }

  /** An error no test pushes is never reported. */
  lemma {:induction false} FailuresLack(cs: seq<Check>, x: Issue)
    requires forall j :: 0 <= j < |cs| ==> cs[j].issue != x
    ensures x !in Failures(cs)
  {
    if cs != [] {
      FailuresLack(cs[..|cs| - 1], x);
    }
  }

  /** Every reported error is the error of some test. */
  lemma {:induction false} FailuresFrom(cs: seq<Check>, x: Issue)
    requires x in Failures(cs)
    ensures exists j :: 0 <= j < |cs| && cs[j].issue == x && cs[j].failed
  {
    var init := cs[..|cs| - 1];
    if x in Failures(init) {
      FailuresFrom(init, x);
      var j :| 0 <= j < |init| && init[j].issue == x && init[j].failed;
      assert cs[j] == init[j];
    }
  }

  /** Every error of row `n` names row `n`. */
  lemma RowErrorsName(host: Host, n: nat, row: Row, x: Issue)
    requires x in RowErrors(host, n, row)
    ensures x.AtRow? && x.row == n
  {
    FailuresFrom(ChecksOf(host, n, row), x);
  }

  /** Every row is checked, with no early exit: an error about row `n`
      is reported exactly when row `n` exists and has it. */
  lemma {:induction false} ErrorsAreByRow(host: Host, rows: seq<Row>, n: nat, k: Kind)
    ensures AtRow(n, k) in ErrorsOf(host, rows)
      <==> 1 <= n <= |rows| && AtRow(n, k) in RowErrors(host, n, rows[n - 1])
  {
    if rows != [] {
      var init := rows[..|rows| - 1];
      ErrorsAreByRow(host, init, n, k);
      if 1 <= n < |rows| {
        assert rows[n - 1] == init[n - 1];
      }
      if AtRow(n, k) in RowErrors(host, |rows|, rows[|rows| - 1]) {
        RowErrorsName(host, |rows|, rows[|rows| - 1], AtRow(n, k));
      }
    }
  }

  /** The required-field rules. */
  lemma RequiredFields(host: Host, n: nat, row: Row)
    ensures AtRow(n, DateRequired) in RowErrors(host, n, row) <==> !Filled(row.date)
    ensures AtRow(n, PaidByRequired) in RowErrors(host, n, row) <==> !Filled(row.paidBy)
    ensures AtRow(n, AmountRequired) in RowErrors(host, n, row)
      <==> !Filled(row.amount) || host.parseFloat(row.amount.value).None?
    ensures AtRow(n, InvalidDate) in RowErrors(host, n, row)
      <==> Filled(row.date) && !host.dateParses(row.date.value)
  {
    var cs := ChecksOf(host, n, row);
    FailedIn(cs, 0);
    FailedIn(cs, 1);
    FailedIn(cs, 2);
    FailedIn(cs, 7);
  }

  /** A gift needs Gift To and only warns about beneficiaries; any other
      row needs beneficiaries. */
  lemma GiftRules(host: Host, n: nat, row: Row)
    ensures AtRow(n, GiftToRequired) in RowErrors(host, n, row)
      <==> IsGiftCell(row.isGift) && !Filled(row.giftTo)
    ensures AtRow(n, BeneficiariesRequired) in RowErrors(host, n, row)
      <==> !IsGiftCell(row.isGift) && !Filled(row.beneficiaries)
    ensures AtRow(n, BeneficiariesIgnored) in RowWarnings(n, row)
      <==> IsGiftCell(row.isGift) && Filled(row.beneficiaries)
    ensures AtRow(n, BeneficiariesIgnored) !in RowErrors(host, n, row)
  {
    var cs := ChecksOf(host, n, row);
    FailedIn(cs, 3);
    FailedIn(cs, 4);
    FailuresLack(cs, AtRow(n, BeneficiariesIgnored));
  }

  /** An absent or empty split type is never an error. */
  lemma AbsentSplitTypeOk(host: Host, n: nat, row: Row)
    requires !Filled(row.splitType)
    ensures AtRow(n, InvalidSplitType) !in RowErrors(host, n, row)
  {
    FailedIn(ChecksOf(host, n, row), 5);
  }

  /** A present split type must be equal, percentage or weight ignoring
      case. */
  lemma SplitTypeRule(host: Host, n: nat, row: Row)
    requires Filled(row.splitType)
    ensures AtRow(n, InvalidSplitType) in RowErrors(host, n, row)
      <==> !KnownSplitType(ToLower(row.splitType.value))
  {
    FailedIn(ChecksOf(host, n, row), 5);
  }

  /** A percentage row with Split Data is in error exactly when its
      percentages are more than 0.01 away from 100, and the error carries
      that total; no other row has this error. */
  lemma PercentRule(host: Host, n: nat, row: Row, t: real)
    ensures AtRow(n, PercentNot100(t)) in RowErrors(host, n, row)
      <==> ChecksPercent(row) && t == RowTotal(host, row) && Abs(t - 100.0) > 0.01
  {
    var cs := ChecksOf(host, n, row);
    if cs[6].issue == AtRow(n, PercentNot100(t)) {
      FailedIn(cs, 6);
    } else {
      FailuresLack(cs, AtRow(n, PercentNot100(t)));
    }
  }
}
