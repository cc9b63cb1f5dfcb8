/** A row of the 'Expenses' worksheet, as the spreadsheet library's
    `sheet_to_json` hands it over: one optional text per column, `None`
    where the cell is empty. */
module Sheet {
  import opened Options
  import opened Text

  datatype Row = Row(
    date: Option<string>,           // 'Date'
    paidBy: Option<string>,         // 'Paid By'
    amount: Option<string>,         // 'Amount'
    beneficiaries: Option<string>,  // 'Beneficiaries'
    isGift: Option<string>,         // 'Is Gift'
    giftTo: Option<string>,         // 'Gift To'
    splitType: Option<string>,      // 'Split Type'
    splitData: Option<string>,      // 'Split Data'
    notes: Option<string>)          // 'Notes'

  /** JavaScript truthiness of a cell: present and not empty. */
  predicate Filled(c: Option<string>) {
    c.Some? && c.value != ""
  }

  /** `row['Is Gift']?.toLowerCase() === 'yes'`. */
  predicate IsGiftCell(c: Option<string>) {
    c.Some? && ToLower(c.value) == "yes"
  }

  /** `cell?.toLowerCase()`. */
  function LowerCell(c: Option<string>): (r: Option<string>)
    ensures r.Some? <==> c.Some?
  {
    match c
    case Some(s) => Some(ToLower(s))
    case None => None
  }
}
