# fare-splitter: a Dafny model of the expense and settlement logic

fare-splitter is a web app that splits the cost of a group trip. A trip has a roster of
members. Expenses are paid by one member, or jointly by several "sponsors" with fixed
shares. An expense is shared among its beneficiaries in one of three ways: equally, by
percentage, or by weight. A gift is credited to its payer but charges nobody. From the
expenses the app computes each member's `paid`, `owes` and `balance`. It then proposes a
list of debtor-to-creditor transfers that settle the balances.

The app also works with spreadsheets:

- It exports a trip's expenses, member summary and settlements to a workbook.
- It validates an imported workbook row by row.
- It maps the names in the workbook onto trip members, through a mapping dialog if needed.
- It turns the rows back into expenses.

This project models that logic in Dafny and proves what the code promises about it.

| module (file) | models |
|---|---|
| `Settlement` (settlement.dfy) | `calculateBalances`, `calculateSettlements`, the exported expense rows (src/lib/settlement.ts) |
| `BalanceProperties` (balance_properties.dfy) | sums over the roster: what one expense credits and charges, conservation of `paid`, when the balances sum to zero |
| `ExcelTemplate` (excel_template.dfy) | `validateExcelData` (src/lib/excel-template.ts) |
| `ImportExpenses` (import_expenses.dfy) | `parseSplitData`, `processExpenses`, name collection, unmatched detection and the import decision (ImportExpensesDialog.tsx) |
| `MemberMapping` (member_mapping.dfy) | the mapping dialog's state: auto-mapping, map-to-existing, add-as-new, the Confirm condition |
| `TripDetail` (trip_detail.dfy) | the load-time filters and `calculateSummary` (TripDetail.tsx) |
| `EditExpenseForm` (edit_expense_form.dfy) | submit gating, the submitted record, and the form's state handlers |
| `CreateTrip` (create_trip.dfy) | member-slot resizing, `updateMember`, the creation checks and payload |
| `Scenarios` (scenarios.dfy) | the sample data of src/lib/test-calculations.ts, worked through the engine |
| `Options`, `Records`, `Seqs`, `Text`, `Runtime`, `Sheet` | support: optional values, JS objects as ordered entry lists, sums, string functions, host functions, spreadsheet rows |

## Modelling choices

- **Amounts** are exact `real`s. The tolerance 0.01 is the constant `Settlement.Epsilon`.
  `Math.round(x * 100) / 100` is `Settlement.Round2`, the floor of `x*100 + 0.5` divided by 100.
- **A JS object used as a dictionary** (`split_data`, `joint_treat_shares`, the
  parsed Split Data) is a `Records.Record`: a sequence of key/value entries in insertion
  order. `Records.Put` replaces the value of an existing key in place and appends a new
  key at the end, as assignment to a JS object does. `Object.entries` is the sequence itself.
- **The two balance maps** that the source mutates in place (in `calculateBalances` and
  `calculateSummary`) are Dafny `map`s. These are updated by methods with loops, and the
  methods are proved against the fold functions (`Settlement.FinalBalance`,
  `TripDetail.PaidBy`/`OwedBy`).
- **The planner** takes `Object.entries(balances)` as a sequence of `Account`s in entry order.
  - The greedy loop is `Settlement.Step`; `Settlement.Run` iterates it to the end.
  - The method `CalculateSettlements` sorts the two lists and hands them to the method
    `Settle`, whose loop keeps its state equal to what `Run` would reach from there.
  - Every round is recorded as a `Move`, so that what each party received or sent can be
    stated before rounding.
- **Spreadsheet cells** are `Option<string>`. An absent or empty cell is not `Filled`.
- **Host functions** are fields of `Runtime.Host`, so every result that depends on one says so:
  `parseFloat`, the printing of a number, `Date.parse`, `toISOString`, `Date.now`.
  `trim`, `toLowerCase`, `split` and `join` are defined concretely over ASCII in `Text`.
- **React components with state** are classes whose fields are the component state:
  `MemberMapping.Dialog`, `EditExpenseForm.Form`, `CreateTrip.TripDraft`.
  Handlers are methods with `modifies this`.

Where the code and a plain reading of the app differ, the model follows the code:

- The percentage branch charges a beneficiary whenever its entry is non-zero, negative entries included.
- The weight total counts beneficiaries outside the roster too, but only roster members are charged.
- The equal share divides by the full length of the beneficiary list, roster or not.
- Sponsors replace the payer as soon as the shares object has any key, even if no share is positive.
- A gift credits its payer and charges nobody. The balances therefore do not sum to zero in
  general: `BalanceProperties.GiftSurplus` and `Scenarios.SampleBalancesSumToGift` show the surplus.

## Model

| member | source | states |
|---|---|---|
| Settlement.SponsorCredit | src/lib/settlement.ts:39-43 | what the sponsor entries credit a member: the sum of every positive share listed under that name |
| Settlement.SponsorCreditBounds | src/lib/settlement.ts:39-43 | a sponsor is never debited, and a name without a share is credited nothing |
| Settlement.PaidShare | src/lib/settlement.ts:37-49 | what one expense adds to a member's `paid`: the sponsor credit when the shares object has a key, otherwise the amount for the payer and nothing for anyone else |
| Settlement.PaidShareWho | src/lib/settlement.ts:37-49 | only a listed sponsor, or without sponsors the payer, is credited; the credit is negative only if the payer's amount is |
| Settlement.Charge | src/lib/settlement.ts:60-92 | what one listing of a beneficiary adds to `owes`: amount times percentage over 100, amount times weight over the total weight (a missing or zero weight counts as 1), or amount over the number of listings |
| Settlement.ChargesToUnlisted | src/lib/settlement.ts:62-91 | a name that is not listed among the beneficiaries is charged nothing |
| Settlement.OwedShare | src/lib/settlement.ts:52-93 | what one expense adds to a member's `owes`: nothing for a gift or an empty list, otherwise the charges of every listing of the member |
| Settlement.TotalPaid | src/lib/settlement.ts:35-49 | a member's `paid` after all expenses, expense after expense |
| Settlement.TotalPaidBounds | src/lib/settlement.ts:35-49 | a member who neither paid nor sponsored any expense has paid 0; with no negative amount nobody's `paid` is negative |
| Settlement.TotalOwed | src/lib/settlement.ts:51-94 | a member's `owes` after all expenses, expense after expense |
| Settlement.TotalOwedUnlisted | src/lib/settlement.ts:52-93 | a member listed in no expense that is not a gift owes 0 |
| Settlement.FinalBalance | src/lib/settlement.ts:98-100 | the final record of a member has `balance == paid - owes` |
| Settlement.CalculateBalances | src/lib/settlement.ts:27-103 | the result has exactly one entry per roster member, so names outside the roster never get one; each entry is the fold of all expenses for that member |
| Settlement.CreditPayers | src/lib/settlement.ts:36-49 | one expense raises each roster member's `paid` by its payer share (positive sponsor shares when the shares object has a key, else the whole amount to `paid_by`); no key is added and `owes` is untouched |
| Settlement.ChargeBeneficiaries | src/lib/settlement.ts:51-94 | one expense raises each roster member's `owes` by its owed share: nothing for a gift or an empty beneficiary list, else the share of the chosen split |
| Settlement.ChargeByPercentage | src/lib/settlement.ts:60-68 | each roster beneficiary with a non-zero entry is charged `amount * p / 100`, once per listing |
| Settlement.ChargeByWeight | src/lib/settlement.ts:69-82 | each roster beneficiary is charged `amount * w / totalWeight`, with `w = split_data[b] or 1`, once per listing |
| Settlement.WeightChargeIs | src/lib/settlement.ts:76-77 | the amount the weight loop adds for one listing, `amount * weight / totalWeight`, is the charge the balances use for that beneficiary |
| Settlement.ChargeEqually | src/lib/settlement.ts:83-92 | each roster beneficiary is charged `amount / beneficiaries.length` per listing |
| Settlement.CreditorsOf | src/lib/settlement.ts:109-111 | the accounts whose balance exceeds 0.01, as parties owed that balance, in entry order; at most one per account |
| Settlement.DebtorsOf | src/lib/settlement.ts:114-116 | the accounts whose balance is below -0.01, as parties owing its absolute value, in entry order; at most one per account |
| Settlement.CreditorsOfSound | src/lib/settlement.ts:109-111 | every creditor is owed more than 0.01 and comes from an account whose balance exceeds 0.01 |
| Settlement.CreditorsOfComplete | src/lib/settlement.ts:109-111 | every account with balance above 0.01 appears as a creditor with that balance |
| Settlement.DebtorsOfSound | src/lib/settlement.ts:114-116 | every debtor owes more than 0.01 and comes from an account whose balance is below -0.01 |
| Settlement.DebtorsOfComplete | src/lib/settlement.ts:114-116 | every account with balance below -0.01 appears as a debtor owing the absolute balance |
| Settlement.Insert | src/lib/settlement.ts:112 | inserting adds exactly one party: the result is a permutation of the list plus it |
| Settlement.InsertDescending | src/lib/settlement.ts:112 | inserting into a descending list keeps it descending |
| Settlement.SortDescending | src/lib/settlement.ts:112 | the sorted list is a permutation of the input, in descending order of amount |
| Settlement.Min | src/lib/settlement.ts:126 | the settled amount is the smaller of the two remaining amounts |
| Settlement.Round2 | src/lib/settlement.ts:132 | `Math.round(x * 100) / 100` gives a whole number of cents |
| Settlement.Start | src/lib/settlement.ts:120-122 | the loop runs at all exactly when there is both a creditor and a debtor |
| Settlement.Plan | src/lib/settlement.ts:105-143 | the loop ends with the creditors or the debtors used up; without a creditor or without a debtor no transfer is made |
| Settlement.Step | src/lib/settlement.ts:122-141 | one round keeps both list lengths; `i` and `j` never decrease, each advances by at most one, and at least one advances |
| Settlement.Run | src/lib/settlement.ts:122-141 | the loop terminates, and it stops only once creditors or debtors are used up |
| Settlement.Emitted | src/lib/settlement.ts:128-134 | at most one transfer is emitted per round |
| Settlement.Round2Near | src/lib/settlement.ts:132 | rounding to cents moves an amount by at most half a cent |
| Settlement.Round2AboveTolerance | src/lib/settlement.ts:128-132 | an amount above 0.01 never rounds below 0.01 |
| Settlement.EmittedSound | src/lib/settlement.ts:128-133 | every emitted transfer is at least 0.01, from a debtor to a creditor |
| Settlement.CreditorsFromAccounts | src/lib/settlement.ts:109-112 | after sorting, every creditor still has an amount above 0.01 and comes from a creditor account; sorting keeps the count |
| Settlement.DebtorsFromAccounts | src/lib/settlement.ts:114-117 | after sorting, every debtor still has an amount above 0.01 and comes from a debtor account; sorting keeps the count |
| Settlement.StartInv | src/lib/settlement.ts:120 | the loop invariant holds before the first round |
| Settlement.StepInv | src/lib/settlement.ts:122-141 | a round preserves the invariant. The invariant says: every remaining amount is the original minus what the rounds settled; parties before `i`/`j` hold between 0 and 0.01; the others hold at least 0.01; the transfers are those the rounds emit |
| Settlement.RunInv | src/lib/settlement.ts:122-141 | the invariant holds when the loop ends |
| Settlement.MovesNonNegative | src/lib/settlement.ts:126-137 | no party ever receives or sends a negative total |
| Settlement.PlanInv | src/lib/settlement.ts:105-144 | the invariant holds for the final state of `calculateSettlements` |
| Settlement.PlanTransfers | src/lib/settlement.ts:122-134 | every transfer is at least 0.01, goes from a member with balance below -0.01 to a member with balance above 0.01 |
| Settlement.PlanRounds | src/lib/settlement.ts:122-141 | there are at most as many transfers as rounds, and at most `|creditors| + |debtors| - 1` rounds |
| Settlement.PlanConserves | src/lib/settlement.ts:126-137 | each creditor receives, and each debtor pays, between 0 and its balance (before rounding) |
| Settlement.PlanExhausts | src/lib/settlement.ts:139-141 | at the end, either every creditor or every debtor is within 0.01 of fully settled |
| Settlement.Settle | src/lib/settlement.ts:120-141 | the loop over the sorted lists ends with the transfers `Run` reaches from the first round |
| Settlement.CalculateSettlements | src/lib/settlement.ts:105-144 | returns the planned transfers. Each is at least 0.01 from a debtor to a creditor, and there are at most `|creditors| + |debtors|` of them |
| Settlement.EntryTexts | src/lib/settlement.ts:155-156 | one `member:value` text per entry, in entry order |
| Settlement.SplitDataText | src/lib/settlement.ts:153-158 | the Split Data cell is empty for an equal split or absent split data |
| Settlement.ExpenseRow | src/lib/settlement.ts:152-171 | the exported row carries the date, payer and notes, 'Yes'/'No' for the gift flag, and the split type's name, with a missing or empty split type written as 'equal'; the Split Type cell is never empty |
| Settlement.SplitTypeOrEqual | src/lib/settlement.ts:167 | a missing or empty split type becomes equal, any other is kept, and the result is never the empty split type |
| BalanceProperties.SinglePayerCredit | src/lib/settlement.ts:44-48 | without sponsors, the roster's total `paid` rises by the amount if `paid_by` is on the roster, else by 0 |
| BalanceProperties.JointCredit | src/lib/settlement.ts:39-43 | the roster's sponsor credit is the sum of the positive shares of sponsors on the roster |
| BalanceProperties.JointPayerCredit | src/lib/settlement.ts:37-43 | with sponsors, the roster's total `paid` rises by the positive roster shares and `paid_by` gets nothing |
| BalanceProperties.OwedIsListedCharges | src/lib/settlement.ts:57-92 | the roster's total `owes` from one expense is the sum of the charges to its listed roster beneficiaries |
| BalanceProperties.NothingOwed | src/lib/settlement.ts:52-57 | a gift, or an expense with no beneficiaries, adds nothing to any `owes` |
| BalanceProperties.EqualCharges | src/lib/settlement.ts:83-92 | an equal split charges the roster `amount / length` times the number of listed roster beneficiaries |
| BalanceProperties.EqualChargesAll | src/lib/settlement.ts:83-92 | an equal split over roster members charges exactly the amount |
| BalanceProperties.PercentageCharges | src/lib/settlement.ts:60-68 | a percentage split charges the roster `amount / 100` times the sum of non-zero roster percentages listed |
| BalanceProperties.PercentPointwise | src/lib/settlement.ts:63-64 | each listing is charged `amount / 100` times its roster percentage |
| BalanceProperties.WeightPointwise | src/lib/settlement.ts:71-78 | each listing is charged `amount / totalWeight` times its roster weight |
| BalanceProperties.WeightCharges | src/lib/settlement.ts:69-82 | a weight split charges the roster `amount / totalWeight` times the listed roster weights |
| BalanceProperties.WeightChargesAll | src/lib/settlement.ts:69-82 | a weight split over roster members with non-zero total weight charges exactly the amount |
| BalanceProperties.NetSplit | src/lib/settlement.ts:98-100 | an expense's net effect on the roster is what it credits minus what it charges |
| BalanceProperties.BalanceSum | src/lib/settlement.ts:98-100 | the roster's balances sum to the sum over expenses of their net effect |
| BalanceProperties.PaidSum | src/lib/settlement.ts:35-49 | the roster's total `paid` is the sum over expenses of what each credits |
| BalanceProperties.PaidConserved | src/lib/settlement.ts:35-49 | when every expense credits its full amount to the roster, total `paid` equals the total amount spent |
| BalanceProperties.SinglePayerFullyCredited | src/lib/settlement.ts:44-48 | an expense paid by a roster member without sponsors is fully credited |
| BalanceProperties.JointFullyCredited | src/lib/settlement.ts:37-43 | positive roster shares that add up to the amount credit it fully |
| BalanceProperties.BalancedSumsToZero | src/lib/settlement.ts:35-95 | when every expense charges what it credits, the net effects sum to zero |
| BalanceProperties.ZeroSum | src/lib/settlement.ts:98-100 | under the same condition, the roster's balances sum to zero |
| BalanceProperties.EqualInsideRosterBalanced | src/lib/settlement.ts:44-92 | an equal split paid by and shared among roster members charges what it credits |
| BalanceProperties.GiftSurplus | src/lib/settlement.ts:52-54 | a gift paid by a roster member raises the balance sum by its full amount |
| ExcelTemplate.RowWarnings | src/lib/excel-template.ts:91 | a row yields no warning or only the 'Beneficiaries ignored' warning |
| ExcelTemplate.Validate | src/lib/excel-template.ts:70-126 | `isValid` holds exactly when there are no errors; warnings never matter |
| ExcelTemplate.SumPercentages | src/lib/excel-template.ts:105-110 | the loop sums the values after ':', counting unreadable ones as 0 |
| ExcelTemplate.CheckRequired | src/lib/excel-template.ts:83-85 | errors for a missing date, a missing payer, or a missing or unreadable amount, in that order |
| ExcelTemplate.CheckGift | src/lib/excel-template.ts:88-94 | the gift and beneficiary errors, and the one warning |
| ExcelTemplate.CheckSplit | src/lib/excel-template.ts:97-117 | the split type error and the percentage total error |
| ExcelTemplate.CheckRow | src/lib/excel-template.ts:79-122 | a row's errors and warnings, in the source's order |
| ExcelTemplate.ValidateExcelData | src/lib/excel-template.ts:70-126 | the loop checks every row in order with no early exit; valid exactly when there are no errors |
| ExcelTemplate.NoDataResult | src/lib/excel-template.ts:74-77 | missing or empty data gives exactly the 'No data found' error, no warnings, and not valid |
| ExcelTemplate.RowErrorsName | src/lib/excel-template.ts:80-122 | every error of row `n` is tagged with row number `n` |
| ExcelTemplate.ErrorsAreByRow | src/lib/excel-template.ts:79-123 | an error tagged `n` occurs exactly when `1 <= n <= rows` and the `n`-th row (1-based) has it |
| ExcelTemplate.RequiredFields | src/lib/excel-template.ts:83-122 | each required-field and date error occurs if and only if its condition holds |
| ExcelTemplate.GiftRules | src/lib/excel-template.ts:88-94 | a gift (case-insensitive 'yes') without Gift To is an error; a gift with Beneficiaries only warns; a non-gift without Beneficiaries is an error; each iff |
| ExcelTemplate.AbsentSplitTypeOk | src/lib/excel-template.ts:97-98 | an absent split type never gives a split-type error |
| ExcelTemplate.SplitTypeRule | src/lib/excel-template.ts:97-100 | a present split type is an error iff, lower-cased, it is not equal, percentage or weight |
| ExcelTemplate.PercentRule | src/lib/excel-template.ts:103-113 | a percentage row with Split Data has the total error iff its total is more than 0.01 away from 100 |
| ImportExpenses.SplitDataOf | src/components/trip/ImportExpensesDialog.tsx:46-47 | empty Split Data parses to the empty record |
| ImportExpenses.ParseSplitData | src/components/trip/ImportExpensesDialog.tsx:46-60 | the loop fills the record exactly as the piecewise definition does |
| ImportExpenses.LastPairValue | src/components/trip/ImportExpensesDialog.tsx:52-57 | a key gets a value iff some piece with both sides non-empty names it |
| ImportExpenses.FillPairsLookup | src/components/trip/ImportExpensesDialog.tsx:52-57 | each key's value is that of the last piece naming it: later duplicates overwrite, pieces lacking a side are skipped |
| ImportExpenses.SplitDataLookup | src/components/trip/ImportExpensesDialog.tsx:46-60 | looking up a key in the parsed record gives the value of the last comma-separated piece naming it |
| ImportExpenses.FillPairsKeyed | src/components/trip/ImportExpensesDialog.tsx:49-57 | the parsed record never holds a key twice |
| ImportExpenses.FillEntryTexts | src/components/trip/ImportExpensesDialog.tsx:52-57 | filling from the exported `member:value` texts rebuilds the record |
| ImportExpenses.SplitDataRoundTrip | src/components/trip/ImportExpensesDialog.tsx:46-60 | `parseSplitData` of the text `exportToExcel` writes (src/lib/settlement.ts:154-157) is the original record, for plain names and printable values |
| ImportExpenses.MapMember | src/components/trip/ImportExpensesDialog.tsx:159 | unmapped names pass through; a non-empty mapping replaces the name |
| ImportExpenses.SplitTypeText | src/components/trip/ImportExpensesDialog.tsx:155 | the lower-cased split type, 'equal' when absent, never empty |
| ImportExpenses.SplitTypeOf | src/components/trip/ImportExpensesDialog.tsx:169 | the split type keeps its text |
| ImportExpenses.SplitTypeNameRoundTrip | src/components/trip/ImportExpensesDialog.tsx:169 | the name of a split type reads back as the same split type |
| ImportExpenses.MapPieces | src/components/trip/ImportExpensesDialog.tsx:166 | one beneficiary per comma-separated piece, trimmed then mapped, in order |
| ImportExpenses.MapKeys | src/components/trip/ImportExpensesDialog.tsx:170-171 | the split data re-keyed entry by entry through `mapMember`, a later entry overwriting an earlier one under the same name |
| ImportExpenses.MapKeysRenames | src/components/trip/ImportExpensesDialog.tsx:170-171 | every entry of the mapped split data is an original entry with its key mapped and its value kept |
| ImportExpenses.MapKeysKeys | src/components/trip/ImportExpensesDialog.tsx:170-171 | every entry shows up under its mapped name, and every name of the result is the mapped name of some entry |
| ImportExpenses.MapKeysLastWins | src/components/trip/ImportExpensesDialog.tsx:170-171 | the value under a mapped name is that of the last entry mapped to it (`Object.fromEntries` overwrites) |
| ImportExpenses.MapKeysKeyed | src/components/trip/ImportExpensesDialog.tsx:170-171 | the re-keyed split data never has a name twice |
| ImportExpenses.MapKeysUnmapped | src/components/trip/ImportExpensesDialog.tsx:170-171 | with no key mapped, the split data is unchanged |
| ImportExpenses.ImportedIdsDistinct | src/components/trip/ImportExpensesDialog.tsx:162 | the rows of one import get pairwise different ids |
| ImportExpenses.ProcessRow | src/components/trip/ImportExpensesDialog.tsx:153-173 | a gift row gets no beneficiaries, the equal split, no split data and at most one trimmed, mapped recipient; a non-gift row gets its split type, split data iff not equal with mapped keys, and its beneficiaries split, trimmed and mapped |
| ImportExpenses.ProcessExpenses | src/components/trip/ImportExpensesDialog.tsx:152-175 | one expense per row, in row order |
| ImportExpenses.RowSplitTypeReadBack | src/components/trip/ImportExpensesDialog.tsx:155 | the exported 'Split Type' cell, lower-cased, reads back as the expense's split type |
| ImportExpenses.RowSplitDataReadBack | src/components/trip/ImportExpensesDialog.tsx:156-172 | the exported 'Split Data' cell, parsed and mapped with the empty mapping, is the expense's split data |
| ImportExpenses.ExportImportRoundTrip | src/components/trip/ImportExpensesDialog.tsx:152-173 | exporting a non-gift expense and importing the row with no mapping restores payer, amount, split type, split data and notes |
| ImportExpenses.RawNames | src/components/trip/ImportExpensesDialog.tsx:95-112 | every name the rows add, row after row: payer, gift recipient, beneficiary pieces, split-data names, duplicates included |
| ImportExpenses.CollectedNames | src/components/trip/ImportExpensesDialog.tsx:95-114 | those names without repeats, in the order of first addition, as `Array.from` of the set yields them |
| ImportExpenses.CollectNames | src/components/trip/ImportExpensesDialog.tsx:95-114 | the nested loops collect exactly the names of the set-based definition, in first-seen order |
| ImportExpenses.AddRowNames | src/components/trip/ImportExpensesDialog.tsx:96-111 | one row adds its payer, gift recipient, beneficiaries and split-data names |
| ImportExpenses.AddPieceNames | src/components/trip/ImportExpensesDialog.tsx:99-104 | the beneficiary loop adds every non-empty trimmed piece |
| ImportExpenses.AddPairNames | src/components/trip/ImportExpensesDialog.tsx:105-111 | the split-data loop adds the trimmed name of every piece whose name part is non-empty |
| ImportExpenses.PieceNamesHas | src/components/trip/ImportExpensesDialog.tsx:99-104 | a name is collected from Beneficiaries iff it is non-empty and some trimmed piece equals it |
| ImportExpenses.PairNamesHas | src/components/trip/ImportExpensesDialog.tsx:105-111 | a name is collected from Split Data iff some piece has it, trimmed, as a non-empty name part |
| ImportExpenses.RowNamesHas | src/components/trip/ImportExpensesDialog.tsx:96-111 | a row contributes exactly its trimmed payer, trimmed recipient, beneficiary names and split-data names |
| Seqs.FlatMapHas | src/components/trip/ImportExpensesDialog.tsx:96-112 | a name is among those the rows add, in order, iff some row adds it |
| ImportExpenses.CollectedNamesHold | src/components/trip/ImportExpensesDialog.tsx:95-114 | the collected names are exactly those some row contributes, without duplicates |
| ImportExpenses.KnownName | src/components/trip/ImportExpensesDialog.tsx:118 | some trip member equals the name ignoring case |
| ImportExpenses.KnownNameIsMatch | src/components/trip/ImportExpensesDialog.tsx:118 | a name is known exactly when the mapping dialog's `find` has a case-insensitive match for it |
| ImportExpenses.Unmatched | src/components/trip/ImportExpensesDialog.tsx:117-119 | a name is unmatched iff no trip member equals it ignoring case |
| ImportExpenses.HandleImport | src/components/trip/ImportExpensesDialog.tsx:82-131 | invalid data is rejected with the validation result; the import is direct exactly when the data is valid and every collected name matches a trip member ignoring case, and then the rows are converted with the empty mapping; otherwise the mapping dialog opens with all collected names, at least one of them unmatched |
| ImportExpenses.ConfirmMapping | src/components/trip/ImportExpensesDialog.tsx:177-178 | the kept rows become one expense each, with payers mapped by the dialog's mapping |
| ImportExpenses.DirectImportLosesPayer | src/components/trip/ImportExpensesDialog.tsx:129-130 | as written: a valid row paid by "alice" for member "Alice" is imported directly with payer "alice", so Alice is credited nothing |
| ImportExpenses.ProcessRowFixed | src/components/trip/ImportExpensesDialog.tsx:164 | corrected: the payer is trimmed before mapping, as at collection |
| ImportExpenses.ProcessExpensesFixed | src/components/trip/ImportExpensesDialog.tsx:152-175 | corrected conversion: one expense per row, in order |
| ImportExpenses.HandleImportFixed | src/components/trip/ImportExpensesDialog.tsx:121-131 | corrected decision: same rejection, same direct-import condition and same names for the dialog, but a direct import converts the rows with the automatic case-insensitive mapping |
| ImportExpenses.FixedImportPayersAreMembers | src/components/trip/ImportExpensesDialog.tsx:121-131 | corrected: every payer of a direct import is a trip member |
| ImportExpenses.ValidRowHasPayer | src/lib/excel-template.ts:84 | every row of valid data has a payer |
| ImportExpenses.PayerCollected | src/components/trip/ImportExpensesDialog.tsx:97 | each row's trimmed payer is among the collected names |
| ImportExpenses.AutoMappedIsMember | src/components/trip/MemberMappingDialog.tsx:28-34 | a known name maps to a trip member under the automatic mapping |
| MemberMapping.FirstMatch | src/components/trip/MemberMappingDialog.tsx:29-31 | the match is the first trip member equal ignoring case; none iff no member is |
| MemberMapping.AutoMapping | src/components/trip/MemberMappingDialog.tsx:25-38 | the `autoMapping` object: each imported name with a non-empty first case-insensitive match maps to that match |
| MemberMapping.Unmapped | src/components/trip/MemberMappingDialog.tsx:26-37 | the `unmappedExcelMembers` list: the other imported names, in import order |
| MemberMapping.AutoMappingMaps | src/components/trip/MemberMappingDialog.tsx:28-38 | a name is auto-mapped iff it is imported and matches a member, and it maps to the first match |
| MemberMapping.AutoMappingValues | src/components/trip/MemberMappingDialog.tsx:29-34 | every auto-mapped value is a non-empty trip member equal to the name ignoring case |
| MemberMapping.UnmappedHolds | src/components/trip/MemberMappingDialog.tsx:35-37 | a name starts as new iff it is imported and matches no member |
| MemberMapping.UnmappedNoDup | src/components/trip/MemberMappingDialog.tsx:28-37 | distinct imported names give a new-member list without duplicates |
| MemberMapping.CountsAddUp | src/components/trip/MemberMappingDialog.tsx:163-165 | after opening, mapped plus new equals the number of imported names |
| MemberMapping.Dialog.constructor | src/components/trip/MemberMappingDialog.tsx:18-20 | the dialog starts with an empty mapping and no new members |
| MemberMapping.Dialog.MembersAfterImport | src/components/trip/MemberMappingDialog.tsx:166 | the reported count is at least the number of trip members |
| MemberMapping.Dialog.AllMembersHandled | src/components/trip/MemberMappingDialog.tsx:66-68 | every imported name is mapped to a non-empty name or listed among the new members |
| MemberMapping.Dialog.Valid | src/components/trip/MemberMappingDialog.tsx:19-59 | what the handlers keep true: mapped names point at trip members, the new members have no repeats, no name is both mapped and new |
| MemberMapping.Dialog.Open | src/components/trip/MemberMappingDialog.tsx:22-43 | opening sets the auto-mapping and the unmatched names. Afterwards every imported name is handled, in exactly one place; for distinct imported names the invariant holds (mapped values are trip members, no repeats) |
| MemberMapping.Dialog.OpenedState | src/components/trip/MemberMappingDialog.tsx:22-43 | the opened state satisfies the invariant and handles every name exactly once |
| MemberMapping.Dialog.HandleMappingChange | src/components/trip/MemberMappingDialog.tsx:45-48 | sets `mapping[x] = t` and removes `x` from the new members; no other name changes; a trip-member target keeps the invariant |
| MemberMapping.Dialog.HandleAddAsNew | src/components/trip/MemberMappingDialog.tsx:50-59 | deletes `mapping[x]` and appends `x` only if absent; no other name changes; the invariant (no duplicates, values are members) is kept |
| TripDetail.StringsOf | src/pages/TripDetail.tsx:62 | the filter keeps exactly the string items |
| TripDetail.StringItems | src/pages/TripDetail.tsx:62 | a stored value that is not an array loads as the empty list |
| TripDetail.StoredNamesLoad | src/pages/TripDetail.tsx:62 | names stored as strings load back unchanged, in order |
| TripDetail.LoadExpense | src/pages/TripDetail.tsx:76-81 | a loaded expense keeps only the string beneficiaries and recipients, in order; missing notes become '' |
| TripDetail.SharesTo | src/pages/TripDetail.tsx:118-121 | a name that is not listed is charged nothing |
| TripDetail.TotalAmount | src/pages/TripDetail.tsx:105-108 | the sum of all amounts, whoever paid |
| TripDetail.PaidBy | src/pages/TripDetail.tsx:107-113 | the full amount of every expense the member paid |
| TripDetail.OwedBy | src/pages/TripDetail.tsx:115-123 | per expense: nothing for a gift or an empty list, otherwise an equal share for every listing of the member |
| TripDetail.CalculateSummary | src/pages/TripDetail.tsx:95-127 | with no trip: total 0 and no balances. Otherwise one entry per member; the total is the sum of all amounts; each member gets the fold of what they paid and owe |
| TripDetail.StartBalances | src/pages/TripDetail.tsx:101-103 | every member starts at paid 0, owes 0 |
| TripDetail.ChargeShares | src/pages/TripDetail.tsx:117-122 | each roster beneficiary's `owes` grows by the per-person share per listing; keys unchanged |
| TripDetail.AllAsEngine | src/pages/TripDetail.tsx:107-124 | one engine expense per trip expense, in order |
| TripDetail.EqualChargesTo | src/pages/TripDetail.tsx:116-122 | the summary's per-person share is the engine's equal-split charge |
| TripDetail.SummaryAgreesWithEngine | src/pages/TripDetail.tsx:95-127 | the summary's paid and owes equal `calculateBalances` for expenses without sponsors or split type |
| TripDetail.TotalSplitsByPayer | src/pages/TripDetail.tsx:105-113 | the total counts every amount, including those paid by someone the summary does not credit |
| TripDetail.PaidByOthers | src/pages/TripDetail.tsx:107-113 | the expenses paid by others are a sub-list, none paid by the member |
| CreateTrip.Blanks | src/pages/CreateTrip.tsx:27-29 | padding adds empty slots only |
| CreateTrip.Resized | src/pages/CreateTrip.tsx:24-33 | the new slot list has the requested length, keeps the existing names in front and pads with "" |
| CreateTrip.ResizeBack | src/pages/CreateTrip.tsx:24-33 | growing then shrinking back restores the slots |
| CreateTrip.ShrinkForgets | src/pages/CreateTrip.tsx:30-33 | shrinking then growing back loses the cut names: they return as "" |
| CreateTrip.FilledMembers | src/pages/CreateTrip.tsx:55 | the filled names are exactly the slots that are non-blank after trim, untrimmed |
| CreateTrip.BlanksNotFilled | src/pages/CreateTrip.tsx:55 | padding adds no filled name |
| CreateTrip.GrowingAddsNoMembers | src/pages/CreateTrip.tsx:24-29 | growing the slot list does not change the filled names |
| CreateTrip.PlanTrip | src/pages/CreateTrip.tsx:45-71 | rejected for a blank name; rejected for fewer than 2 filled names; otherwise the trimmed name, the filled names in order and their count (at least 2) |
| CreateTrip.TripDraft.constructor | src/pages/CreateTrip.tsx:17-19 | a new draft has an empty name, 4 members, four empty slots |
| CreateTrip.TripDraft.SetTripName | src/pages/CreateTrip.tsx:125 | only the name changes |
| CreateTrip.TripDraft.HandleMemberCountChange | src/pages/CreateTrip.tsx:21-37 | a count outside 2..100 changes nothing; otherwise the count is set and the slots are resized to it |
| CreateTrip.TripDraft.UpdateMember | src/pages/CreateTrip.tsx:39-43 | only slot `i` changes |
| EditExpenseForm.PercentTotal | src/components/expense/EditExpenseForm.tsx:106 | the sum over the beneficiaries of their percentage, 0 when missing |
| EditExpenseForm.ValidateSplitData | src/components/expense/EditExpenseForm.tsx:103-110 | true for non-percentage splits; for percentage, iff the beneficiaries' entries (missing as 0) are within 0.01 of 100 |
| EditExpenseForm.CanSubmit | src/components/expense/EditExpenseForm.tsx:112-121 | a gift needs a recipient; otherwise beneficiaries are needed and a percentage split must pass the check |
| EditExpenseForm.Payload | src/components/expense/EditExpenseForm.tsx:66-75 | a gift drops split type and data; an equal split drops split data; shares are present iff the joint toggle is on; the rest is copied |
| EditExpenseForm.Submit | src/components/expense/EditExpenseForm.tsx:66-75 | a record is submitted iff the form can submit and the schema accepts the values, and it is the payload |
| EditExpenseForm.PercentTotalOnRoster | src/components/expense/EditExpenseForm.tsx:106 | the form's total is the engine's roster percentage total when beneficiaries are members |
| EditExpenseForm.PercentExpenseWithinTolerance | src/components/expense/EditExpenseForm.tsx:103-110 | a percentage expense passing the check charges the roster within `amount/100 * 0.01` of the amount |
| EditExpenseForm.SubmittedPercentageSplit | src/components/expense/EditExpenseForm.tsx:66-121 | a submitted percentage expense over members charges within `amount/100 * 0.01` of its amount |
| EditExpenseForm.Toggled | src/components/expense/EditExpenseForm.tsx:77-93 | checking appends the member; unchecking removes every occurrence; other names stay |
| EditExpenseForm.ToggleUndo | src/components/expense/EditExpenseForm.tsx:77-84 | checking then unchecking removes the member; a member not listed before is restored exactly |
| EditExpenseForm.SelectAll | src/components/expense/EditExpenseForm.tsx:237-243 | all selected gives the empty list, else the whole roster |
| EditExpenseForm.SelectAllFlips | src/components/expense/EditExpenseForm.tsx:237-246 | on a non-empty roster, the button flips between all selected and not |
| EditExpenseForm.Form.constructor | src/components/expense/EditExpenseForm.tsx:45-64 | the form starts from the expense: toggles, shares, split type defaulting to equal, split data defaulting to empty |
| EditExpenseForm.Form.Submission | src/components/expense/EditExpenseForm.tsx:66-121 | the form yields an expense exactly when `canSubmit` holds and the schema accepts the fields; it carries the form's id, gift flag and beneficiaries |
| EditExpenseForm.Form.ToggleBeneficiary | src/components/expense/EditExpenseForm.tsx:77-84 | only the beneficiaries change, by the toggle |
| EditExpenseForm.Form.ToggleGiftRecipient | src/components/expense/EditExpenseForm.tsx:86-93 | only the recipients change, by the toggle |
| EditExpenseForm.Form.UpdateJointShare | src/components/expense/EditExpenseForm.tsx:95-97 | sets one member's share; other shares and fields are unchanged |
| EditExpenseForm.Form.UpdateSplitData | src/components/expense/EditExpenseForm.tsx:99-101 | sets one member's split value; other entries and fields are unchanged |
| EditExpenseForm.Form.SetGift | src/components/expense/EditExpenseForm.tsx:198-208 | turning gift on clears beneficiaries, sets equal and clears split data; turning it off clears recipients |
| EditExpenseForm.Form.SetJointTreat | src/components/expense/EditExpenseForm.tsx:218-222 | turning joint treat off clears the shares |
| EditExpenseForm.Form.SetSplitType | src/components/expense/EditExpenseForm.tsx:292-296 | choosing equal clears split data; other choices keep it |
| EditExpenseForm.Form.SelectAllGiftTo | src/components/expense/EditExpenseForm.tsx:237-243 | the recipients become the select-all result; nothing else changes |
| EditExpenseForm.Form.SelectAllBeneficiaries | src/components/expense/EditExpenseForm.tsx:316-323 | the beneficiaries become the select-all result; nothing else changes |
| EditExpenseForm.GiftFormChargesNobody | src/components/expense/EditExpenseForm.tsx:66-75 | a submitted gift has no split type and charges nobody in the engine |
| Scenarios.HotelShares | src/lib/test-calculations.ts:7-16 | the hotel credits Alice 10000 and charges each member 2500 |
| Scenarios.LunchShares | src/lib/test-calculations.ts:17-26 | the lunch credits Bob 2000 and charges Alice, Bob and Charlie 2000/3 each |
| Scenarios.JointTreatShares | src/lib/test-calculations.ts:27-37 | the joint treat credits Alice 1600 and Bob 1000 (not the payer field) and charges both 1300 |
| Scenarios.GiftShares | src/lib/test-calculations.ts:38-47 | the gift credits Charlie 500 and charges nobody |
| Scenarios.SampleBalances | src/lib/test-calculations.ts:53 | the sample balances: Alice +21400/3, Bob -4400/3, Charlie -8000/3, Diana -2500 |
| Scenarios.SamplePaidConserved | src/lib/test-calculations.ts:71-73 | the harness's first check holds: total paid equals total spent, 15100 |
| Scenarios.SampleBalancesSumToGift | src/lib/test-calculations.ts:76-77 | the harness's zero-sum check fails: the balances sum to 500, the gift |
| Scenarios.SampleParties | src/lib/settlement.ts:109-117 | Alice is the only creditor; the debtors, largest first, are Charlie, Diana, Bob |
| Scenarios.RoundThirds | src/lib/settlement.ts:132 | 8000/3 rounds to 2666.67 and 4400/3 to 1466.67 |
| Scenarios.SampleSettlements | src/lib/test-calculations.ts:54 | the sample plan: Charlie, Diana and Bob pay Alice 2666.67, 2500 and 1466.67 |
| Scenarios.ExactMatchesTwoTransfers | src/lib/settlement.ts:120-141 | creditors 30 and 20 against debtors 20 and 30 settle in two transfers, largest pair first |
| Records.Put | src/components/expense/EditExpenseForm.tsx:96 | assignment to an object key: that key now reads the new value, every other key is unchanged, the key set gains the key |
| Text.SplitJoin | src/components/trip/ImportExpensesDialog.tsx:50 | splitting a joined text on a separator that no part contains gives back the parts |

## Left out

- File and workbook I/O is not modelled. This covers the xlsx library, reading the uploaded file,
  writing the download, and building the template. Of the export (src/lib/settlement.ts:146-198)
  only the expense row, `Settlement.ExpenseRow`, is modelled: the summary sheet, the settlements
  sheet and the file name are display data that nothing reads back.
- Supabase queries, navigation, toasts and rendering are not modelled. `useEffect` timing is not
  modelled either: `MemberMapping.Dialog.Open` is the effect's body, run once.
- `parseFloat`, number printing, `Date.parse`, `toISOString` and `Date.now` are host
  functions, given as `Runtime.Host` fields. They are given only the properties the proofs need.
  `trim` and `toLowerCase` cover ASCII only: no Unicode whitespace or case mapping.
- IEEE-754 arithmetic is not modelled: amounts are exact reals. The NaN of an unparseable
  amount in `processExpenses` becomes 0 in `ImportExpenses.ProcessRow`.
- Settlement.ChargeByWeight: when the weights sum to 0, the source divides by zero (JS gives
  Infinity or NaN); the model charges nothing in that case.
- JavaScript puts integer-like object keys first in `Object.entries`. Here entries
  keep insertion order.
- `Settlement.CalculateSettlements` takes the entries of the balance map as a sequence of accounts
  in roster order. Building that sequence from the dictionary is not modelled.
- Cells are modelled as their text. A numeric Amount cell of 0 is falsy in the source
  (`!row.Amount`), but the model treats it like any other filled cell.
- The `catch` branch at src/lib/excel-template.ts:114-116 cannot be reached in the model:
  cells are strings, so `split` never throws.
- A split type text other than equal, percentage or weight becomes `SplitType.Other` and
  is charged equally, as in the source. Validation rejects such rows before any import.
- `ExpenseForm.tsx` and its zod schema are not part of this model. For `EditExpenseForm`,
  the schema is reduced to `EditExpenseForm.SchemaAccepts`: a non-empty payer and an amount of at least 0.01.
  The date check is not modelled.
- Settlement.SortDescending: the order of parties with equal amounts is not stated. JavaScript's
  `sort` is stable and so is this insertion sort, but no lemma proves stability.
- MemberMapping.Dialog.MembersAfterImport states only a lower bound. Its body is the source's
  `tripMembers.length + newMembers.length`.
- The console-logging harnesses in src/lib/test-calculations.ts and
  src/lib/form-validation-test.ts are not modelled. Their data is used in `Scenarios`.
- ExpenseSummary.tsx, Trips.tsx, Home.tsx, TripCard.tsx, HeroSection.tsx, Header.tsx and db.ts
  are not part of this model. They are display, network or schema code.

## Findings

| source | as written | input that shows it | evidently intended | confidence | as-written member | corrected member |
|---|---|---|---|---|---|---|
| src/components/trip/ImportExpensesDialog.tsx:129-130 | When every imported name matches a trip member ignoring case, the rows are converted with the empty mapping. A name that differs only in case therefore stays as written, and `calculateBalances` ignores it. The payer is also mapped untrimmed (line 164), although it was collected trimmed (line 97). | trip members `["Alice"]`; one valid row paid by `alice` for `alice`, amount 10. It is imported directly with payer `alice`, and Alice is credited 0. | A direct import maps each name to its case-insensitive match, as the mapping dialog's auto-mapping does, and trims the payer first. Every payer is then a trip member. | not executed | ImportExpenses.DirectImportLosesPayer | ImportExpenses.FixedImportPayersAreMembers |
