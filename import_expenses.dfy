/** The data logic of the spreadsheet import dialog
    (src/components/trip/ImportExpensesDialog.tsx): reading the
    'Split Data' cell, turning rows into expenses, collecting the names a
    workbook mentions, and deciding between importing directly and asking
    for a member mapping. */
module ImportExpenses {
  import opened Options
  import opened Records
  import opened Text
  import opened Runtime
  import opened Sheet
  import opened Seqs
  import opened Settlement
  import opened ExcelTemplate
  import opened MemberMapping

  // ---------------------------------------------------------------------
  // parseSplitData

  /** `const [member, value] = pair.split(':')`: the text before the first
      ':' ... */
  function PairMember(pair: string): string {
    Split(pair, ':')[0]
  }

  /** ... and the text between the first and second ':', `""` standing
      for `undefined` when there is no ':'. */
  function PairValueText(pair: string): string {
    var pieces := Split(pair, ':');
    if |pieces| >= 2 then pieces[1] else ""
  }

  /** `if (member && value)`: both sides are non-empty. */
  predicate PairCounts(pair: string) {
    PairMember(pair) != "" && PairValueText(pair) != ""
  }

  /** The object after the pieces `pairs` were read, pair after pair. */
  function FillPairs(host: Host, pairs: seq<string>): Record {
    if pairs == [] then []
    else
      var acc := FillPairs(host, pairs[..|pairs| - 1]);
      var pair := pairs[|pairs| - 1];
      if PairCounts(pair) then Put(acc, Trim(PairMember(pair)), NumberOrZero(host, Trim(PairValueText(pair))))
      else acc
  }

  /** What `parseSplitData(s)` returns. */
  function SplitDataOf(host: Host, s: string): (r: Record)
    ensures s == "" ==> r == []
  {
    if s == "" then [] else FillPairs(host, Split(s, ','))
  }

  method ParseSplitData(host: Host, s: string) returns (result: Record)
    ensures result == SplitDataOf(host, s)
  {
    if s == "" {
      return [];
    }
    result := [];
    var pairs := Split(s, ',');
    for k := 0 to |pairs|
      invariant result == FillPairs(host, pairs[..k])
    {
      assert pairs[..k + 1][..k] == pairs[..k];
      var member, value := PairMember(pairs[k]), PairValueText(pairs[k]);
      if member != "" && value != "" {
        result := Put(result, Trim(member), NumberOrZero(host, Trim(value)));
      }
    }
    assert pairs[..|pairs|] == pairs;
  }

  /** Reference reading of a split-data text: the value of the LAST piece
      that counts and names `k`, scanning from the end. */
  function LastPairValue(host: Host, pairs: seq<string>, k: string): (v: Option<real>)
    ensures v.Some? <==> exists p :: p in pairs && PairCounts(p) && Trim(PairMember(p)) == k
  {
    if pairs == [] then None
    else
      var pair := pairs[|pairs| - 1];
      if PairCounts(pair) && Trim(PairMember(pair)) == k then Some(NumberOrZero(host, Trim(PairValueText(pair))))
      else
        var v := LastPairValue(host, pairs[..|pairs| - 1], k);
        assert forall p :: p in pairs ==> p in pairs[..|pairs| - 1] || p == pair;
        v
  }

  /** Pieces lacking either side are skipped and a later duplicate
      overwrites an earlier one: looking a name up in the parsed object
      gives the last counting piece for that name. */
  lemma {:induction false} FillPairsLookup(host: Host, pairs: seq<string>, k: string)
    ensures Lookup(FillPairs(host, pairs), k) == LastPairValue(host, pairs, k)
  {
    if pairs != [] {
      FillPairsLookup(host, pairs[..|pairs| - 1], k);
    }
  }

  lemma SplitDataLookup(host: Host, s: string, k: string)
    requires s != ""
    ensures Lookup(SplitDataOf(host, s), k) == LastPairValue(host, Split(s, ','), k)
  {
    FillPairsLookup(host, Split(s, ','), k);
  }

  /** The parsed object never has a key twice. */
  lemma {:induction false} FillPairsKeyed(host: Host, pairs: seq<string>)
    ensures Keyed(FillPairs(host, pairs))
  {
    if pairs != [] {
      var pair := pairs[|pairs| - 1];
      FillPairsKeyed(host, pairs[..|pairs| - 1]);
      if PairCounts(pair) {
        PutKeyed(FillPairs(host, pairs[..|pairs| - 1]), Trim(PairMember(pair)), NumberOrZero(host, Trim(PairValueText(pair))));
      }
    }
  }

  /** A name the export can write back: non-empty, without ',' or ':' and
      without surrounding whitespace. */
  predicate PlainName(k: string) {
    k != "" && ',' !in k && ':' !in k && Trimmed(k)
  }

  /** Split data the export writes and the import reads back unchanged. */
  ghost predicate Exportable(host: Host, r: Record) {
    Keyed(r) && forall e :: e in r ==> PlainName(e.key) && Printable(host, e.value)
  }

  /** One exported `member:value` piece is read back as its entry. */
  lemma ReadEntryText(host: Host, e: Entry)
    requires PlainName(e.key) && Printable(host, e.value)
    ensures PairCounts(e.key + ":" + host.formatNumber(e.value))
    ensures Trim(PairMember(e.key + ":" + host.formatNumber(e.value))) == e.key
    ensures NumberOrZero(host, Trim(PairValueText(e.key + ":" + host.formatNumber(e.value)))) == e.value
  {
    var t := host.formatNumber(e.value);
    SplitCons(e.key, ':', t);
    SplitPiece(t, ':');
    assert e.key + ":" + t == e.key + [':'] + t;
    TrimOfTrimmed(e.key);
    TrimOfTrimmed(t);
  }

  /** Reading one more exported piece appends its entry. */
  lemma FillOneMore(host: Host, pairs: seq<string>, e: Entry)
    requires |pairs| > 0 && pairs[|pairs| - 1] == e.key + ":" + host.formatNumber(e.value)
    requires PlainName(e.key) && Printable(host, e.value)
    requires e.key !in Keys(FillPairs(host, pairs[..|pairs| - 1]))
    ensures FillPairs(host, pairs) == FillPairs(host, pairs[..|pairs| - 1]) + [e]
  {
    ReadEntryText(host, e);
    PutAppends(FillPairs(host, pairs[..|pairs| - 1]), e.key, e.value);
  }

  lemma ExportablePrefix(host: Host, r: Record)
    requires Exportable(host, r) && r != []
    ensures Exportable(host, r[..|r| - 1])
  {
    assert forall e :: e in r[..|r| - 1] ==> e in r;
  }

  lemma EntryTextsPrefix(host: Host, r: Record)
    requires r != []
    ensures EntryTexts(host, r)[..|r| - 1] == EntryTexts(host, r[..|r| - 1])
  {
  }

  lemma {:induction false} FillEntryTexts(host: Host, r: Record)
    requires Exportable(host, r)
    ensures FillPairs(host, EntryTexts(host, r)) == r
  {
    if r != [] {
      ExportablePrefix(host, r);
      FillEntryTexts(host, r[..|r| - 1]);
      assert r[|r| - 1] in r;
      FillEntryStep(host, r);
    }
  }

  lemma FillEntryStep(host: Host, r: Record)
    requires r != [] && Keyed(r)
    requires PlainName(r[|r| - 1].key) && Printable(host, r[|r| - 1].value)
    requires FillPairs(host, EntryTexts(host, r[..|r| - 1])) == r[..|r| - 1]
    ensures FillPairs(host, EntryTexts(host, r)) == r
  {
    var init, e, texts := r[..|r| - 1], r[|r| - 1], EntryTexts(host, r);
    FrontLast(r);
    assert FillPairs(host, texts[..|texts| - 1]) == init by {
      EntryTextsPrefix(host, r);
    }
    assert e.key !in Keys(init) by {
      KeyedPrefixLacks(r, |r|);
    }
    assert FillPairs(host, texts) == init + [e] by {
      FillOneMore(host, texts, e);
    }
  }

  /** Round trip: the 'Split Data' text the export writes for an object
      parses back to the same object, entries in the same order. */
  lemma SplitDataRoundTrip(host: Host, r: Record)
    requires Exportable(host, r)
    ensures SplitDataOf(host, EncodeRecord(host, r)) == r
  {
    var texts := EntryTexts(host, r);
    if r != [] {
      forall p | p in texts ensures ',' !in p {
        var i :| 0 <= i < |texts| && texts[i] == p;
        assert r[i] in r;
      }
      SplitJoin(texts, ',');
      assert "," == [','];
      assert texts[0] != "";
      FillEntryTexts(host, r);
    }
  }

  // ---------------------------------------------------------------------
  // processExpenses

  /** `memberMapping[name] || name`: unmapped names (and names mapped to
      the empty text) stay as they are. */
  function MapMember(mapping: map<string, string>, name: string): (r: string)
    ensures name !in mapping ==> r == name
    ensures name in mapping && mapping[name] != "" ==> r == mapping[name]
  {
    if name in mapping && mapping[name] != "" then mapping[name] else name
  }

  /** `row['Split Type']?.toLowerCase() || 'equal'`. */
  function SplitTypeText(row: Row): (t: string)
    ensures t != ""
    ensures !Filled(row.splitType) ==> t == "equal"
  {
    match LowerCell(row.splitType)
    case Some(t) => if t != "" then t else "equal"
    case None => "equal"
  }

  /** The split type read from its (lower-cased) name. */
  function SplitTypeOf(t: string): (st: SplitType)
    ensures SplitTypeName(st) == t
  {
    if t == "equal" then Equal
    else if t == "percentage" then Percentage
    else if t == "weight" then Weight
    else Other(t)
  }

  /** Reading a written split type name gives the split type back. */
  lemma SplitTypeNameRoundTrip(st: SplitType)
    requires st.Other? ==> st.name !in {"equal", "percentage", "weight"}
    ensures SplitTypeOf(SplitTypeName(st)) == st
  {
  }

  /** The 'Beneficiaries' pieces, each trimmed and mapped; nothing is
      dropped, not even an empty piece. */
  function MapPieces(mapping: map<string, string>, pieces: seq<string>): (r: seq<string>)
    ensures |r| == |pieces|
    ensures forall i :: 0 <= i < |pieces| ==> r[i] == MapMember(mapping, Trim(pieces[i]))
  {
    if pieces == [] then [] else [MapMember(mapping, Trim(pieces[0]))] + MapPieces(mapping, pieces[1..])
  }

  /** `Object.fromEntries(Object.entries(r).map(([m, v]) => [mapMember(m), v]))`:
      the entries are re-keyed in order, so a later entry whose mapped
      key collides overwrites the earlier one. */
  function MapKeys(mapping: map<string, string>, r: Record): Record {
    if r == [] then []
    else
      var last := r[|r| - 1];
      Put(MapKeys(mapping, r[..|r| - 1]), MapMember(mapping, last.key), last.value)
  }

  /** Re-keying only renames: every entry of the result carries the value
      of an entry of `r` under its mapped name. */
  lemma {:induction false} MapKeysRenames(mapping: map<string, string>, r: Record, e: Entry)
    requires e in MapKeys(mapping, r)
    ensures exists d :: d in r && e == Entry(MapMember(mapping, d.key), d.value)
  {
    var last := r[|r| - 1];
    PutEntries(MapKeys(mapping, r[..|r| - 1]), MapMember(mapping, last.key), last.value, e);
    if e != Entry(MapMember(mapping, last.key), last.value) {
      MapKeysRenames(mapping, r[..|r| - 1], e);
      var d :| d in r[..|r| - 1] && e == Entry(MapMember(mapping, d.key), d.value);
      assert d in r;
    } else {
      assert last in r;
    }
  }

  /** Conversely, every entry of `r` shows up under its mapped name, and
      the result has no other names. */
  lemma {:induction false} MapKeysKeys(mapping: map<string, string>, r: Record)
    ensures forall d :: d in r ==> MapMember(mapping, d.key) in Keys(MapKeys(mapping, r))
    ensures forall k :: k in Keys(MapKeys(mapping, r)) ==> exists d :: d in r && MapMember(mapping, d.key) == k
  {
    if r != [] {
      var init, last := r[..|r| - 1], r[|r| - 1];
      MapKeysKeys(mapping, init);
      assert init + [last] == r;
      forall k | k in Keys(MapKeys(mapping, r))
        ensures exists d :: d in r && MapMember(mapping, d.key) == k
      {
        if k != MapMember(mapping, last.key) {
          var d :| d in init && MapMember(mapping, d.key) == k;
          assert d in r;
        }
      }
    }
  }

  /** `Object.fromEntries` keeps the last value given for a key: the
      mapped name of entry `i` reads entry `i`'s value when no later entry
      maps to the same name. */
  lemma {:induction false} MapKeysLastWins(mapping: map<string, string>, r: Record, i: nat)
    requires i < |r|
    requires forall j :: i < j < |r| ==> MapMember(mapping, r[j].key) != MapMember(mapping, r[i].key)
    ensures Lookup(MapKeys(mapping, r), MapMember(mapping, r[i].key)) == Some(r[i].value)
  {
    if i < |r| - 1 {
      var init := r[..|r| - 1];
      assert init[i] == r[i];
      MapKeysLastWins(mapping, init, i);
    }
  }

  /** Re-keying never yields two entries under one name. */
  lemma {:induction false} MapKeysKeyed(mapping: map<string, string>, r: Record)
    ensures Keyed(MapKeys(mapping, r))
  {
    if r != [] {
      var last := r[|r| - 1];
      MapKeysKeyed(mapping, r[..|r| - 1]);
      PutKeyed(MapKeys(mapping, r[..|r| - 1]), MapMember(mapping, last.key), last.value);
    }
  }

  /** With none of its names mapped, a keyed object is copied unchanged. */
  lemma {:induction false} MapKeysUnmapped(mapping: map<string, string>, r: Record)
    requires Keyed(r) && forall e :: e in r ==> e.key !in mapping
    ensures MapKeys(mapping, r) == r
  {
    if r != [] {
      var init, last := r[..|r| - 1], r[|r| - 1];
      assert MapKeys(mapping, init) == init by {
        UnmappedPrefix(mapping, r);
        MapKeysUnmapped(mapping, init);
      }
      assert MapMember(mapping, last.key) == last.key by {
        assert last in r;
      }
      assert Put(init, last.key, last.value) == init + [last] by {
        KeyedPrefixLacks(r, |r|);
        PutAppends(init, last.key, last.value);
      }
      FrontLast(r);
    }
  }

  lemma UnmappedPrefix(mapping: map<string, string>, r: Record)
    requires Keyed(r) && r != [] && forall e :: e in r ==> e.key !in mapping
    ensures Keyed(r[..|r| - 1]) && forall e :: e in r[..|r| - 1] ==> e.key !in mapping
  {
    assert forall e :: e in r[..|r| - 1] ==> e in r;
  }

  /** The id of the expense made from row `index`. */
  function ImportedId(host: Host, index: nat): string {
    "imported-" + NatToString(host.now) + "-" + NatToString(index)
  }

  /** The rows of one import get pairwise different ids. */
  lemma ImportedIdsDistinct(host: Host, i: nat, j: nat)
    requires i != j
    ensures ImportedId(host, i) != ImportedId(host, j)
  {
    var prefix := "imported-" + NatToString(host.now) + "-";
    if ImportedId(host, i) == ImportedId(host, j) {
      assert ImportedId(host, i) == prefix + NatToString(i);
      assert ImportedId(host, j) == prefix + NatToString(j);
      assert NatToString(i) == (prefix + NatToString(i))[|prefix|..];
      assert NatToString(j) == (prefix + NatToString(j))[|prefix|..];
      NatToStringInjective(i, j);
    }
  }

  /** The expense built from row `index` under `mapping`. */
  function ProcessRow(host: Host, mapping: map<string, string>, index: nat, row: Row): (e: Expense)
    ensures e.isGift <==> IsGiftCell(row.isGift)
    ensures e.jointTreatShares.None?
    ensures e.paidBy == MapMember(mapping, row.paidBy.GetOr(""))
    ensures e.isGift ==> e.beneficiaries == [] && e.splitType == Some(Equal) && e.splitData.None?
    ensures e.isGift ==> |e.giftTo| <= 1 && (e.giftTo != [] <==> Filled(row.giftTo))
    ensures e.isGift && Filled(row.giftTo) ==> e.giftTo == [MapMember(mapping, Trim(row.giftTo.value))]
    ensures !e.isGift ==> e.giftTo == [] && e.splitType == Some(SplitTypeOf(SplitTypeText(row)))
    ensures !e.isGift ==> (e.splitData.None? <==> SplitTypeText(row) == "equal")
    ensures !e.isGift && e.splitData.Some? ==>
              e.splitData.value == MapKeys(mapping, SplitDataOf(host, row.splitData.GetOr("")))
    ensures !e.isGift && !Filled(row.beneficiaries) ==> e.beneficiaries == []
    ensures !e.isGift && Filled(row.beneficiaries) ==>
              e.beneficiaries == MapPieces(mapping, Split(row.beneficiaries.value, ','))
  {
    var isGift := IsGiftCell(row.isGift);
    var splitType := SplitTypeText(row);
    var splitData := SplitDataOf(host, row.splitData.GetOr(""));
    Expense(
      id := ImportedId(host, index),
      expenseDate := host.isoDay(row.date.GetOr("")),
      paidBy := MapMember(mapping, row.paidBy.GetOr("")),
      amount := host.parseFloat(row.amount.GetOr("")).GetOr(0.0),
      beneficiaries :=
        if isGift then []
        else if Filled(row.beneficiaries) then MapPieces(mapping, Split(row.beneficiaries.value, ','))
        else [],
      isGift := isGift,
      giftTo :=
        if isGift && Filled(row.giftTo) then [MapMember(mapping, Trim(row.giftTo.value))] else [],
      jointTreatShares := None,
      splitType := Some(if isGift then Equal else SplitTypeOf(splitType)),
      splitData :=
        if isGift || splitType == "equal" then None else Some(MapKeys(mapping, splitData)),
      notes := row.notes.GetOr(""))
  }

  /** `processExpenses(rows, mapping, newMembers)`: one expense per row,
      in row order; `newMembers` is not used. */
  function ProcessExpenses(host: Host, rows: seq<Row>, mapping: map<string, string>): (es: seq<Expense>)
    ensures |es| == |rows|
    ensures forall i :: 0 <= i < |rows| ==> es[i] == ProcessRow(host, mapping, i, rows[i])
  {
    seq(|rows|, i requires 0 <= i < |rows| => ProcessRow(host, mapping, i, rows[i]))
  }

  /** Export then import: a non-gift expense with a named split type and
      exportable split data comes back with the same payer, amount, split
      type, split data and notes when nothing is mapped. */
  lemma ExportImportRoundTrip(host: Host, index: nat, e: Expense)
    requires !e.isGift && e.splitType.Some? && e.splitType.value in {Equal, Percentage, Weight}
    requires e.splitType == Some(Equal) <==> e.splitData.None?
    requires e.splitData.Some? ==> Exportable(host, e.splitData.value)
    requires Printable(host, e.amount)
    ensures var e' := ProcessRow(host, map[], index, ExpenseRow(host, e));
      e'.paidBy == e.paidBy && e'.amount == e.amount && !e'.isGift &&
      e'.splitType == e.splitType && e'.splitData == e.splitData && e'.notes == e.notes
  {
    var row := ExpenseRow(host, e);
    assert ToLower("No") == "no";
    RowSplitTypeReadBack(host, e);
    if e.splitData.Some? {
      RowSplitDataReadBack(host, e);
    }
  }

  /** The exported 'Split Type' cell reads back as the split type. */
  lemma RowSplitTypeReadBack(host: Host, e: Expense)
    requires e.splitType.Some? && e.splitType.value in {Equal, Percentage, Weight}
    ensures SplitTypeText(ExpenseRow(host, e)) == SplitTypeName(e.splitType.value)
    ensures SplitTypeOf(SplitTypeText(ExpenseRow(host, e))) == e.splitType.value
  {
    var name := SplitTypeName(e.splitType.value);
    assert LowerCell(ExpenseRow(host, e).splitType) == Some(name) by {
      LowerOfLower(name);
    }
    SplitTypeNameRoundTrip(e.splitType.value);
  }

  /** The exported 'Split Data' cell reads back, unmapped, as the split
      data. */
  lemma RowSplitDataReadBack(host: Host, e: Expense)
    requires e.splitType != Some(Equal) && e.splitData.Some? && Exportable(host, e.splitData.value)
    ensures MapKeys(map[], SplitDataOf(host, ExpenseRow(host, e).splitData.GetOr(""))) == e.splitData.value
  {
    SplitDataRoundTrip(host, e.splitData.value);
    MapKeysUnmapped(map[], e.splitData.value);
  }

  // ---------------------------------------------------------------------
  // Collecting the names a workbook mentions

  /** 'Paid By', trimmed, when present. */
  function PayerNames(row: Row): seq<string> {
    if Filled(row.paidBy) then [Trim(row.paidBy.value)] else []
  }

  /** 'Gift To', trimmed, when present. */
  function GiftNames(row: Row): seq<string> {
    if Filled(row.giftTo) then [Trim(row.giftTo.value)] else []
  }

  /** The beneficiary pieces that are non-empty once trimmed. */
  function PieceNames(pieces: seq<string>): seq<string> {
    if pieces == [] then []
    else
      var init := PieceNames(pieces[..|pieces| - 1]);
      var member := Trim(pieces[|pieces| - 1]);
      if member != "" then init + [member] else init
  }

  /** The split-data names: the text before ':' of every piece where it
      is non-empty, then trimmed (so a blank name gives `""`). */
  function PairNames(pairs: seq<string>): seq<string> {
    if pairs == [] then []
    else
      var init := PairNames(pairs[..|pairs| - 1]);
      var member := PairMember(pairs[|pairs| - 1]);
      if member != "" then init + [Trim(member)] else init
  }

  function BeneficiaryNames(row: Row): seq<string> {
    if Filled(row.beneficiaries) then PieceNames(Split(row.beneficiaries.value, ',')) else []
  }

  function SplitDataNames(row: Row): seq<string> {
    if Filled(row.splitData) then PairNames(Split(row.splitData.value, ',')) else []
  }

  /** Every name one row adds, in the order the source adds them. */
  function RowNames(row: Row): seq<string> {
    PayerNames(row) + GiftNames(row) + BeneficiaryNames(row) + SplitDataNames(row)
  }

  /** Every name the rows add, row after row. */
  function RawNames(rows: seq<Row>): seq<string> {
    FlatMap(rows, RowNames)
  }

  /** `Array.from(allExcelMembers)`: the distinct names in the order they
      were first added. */
  function CollectedNames(rows: seq<Row>): seq<string> {
    AddAll([], RawNames(rows))
  }

  method CollectNames(rows: seq<Row>) returns (names: seq<string>)
    ensures names == CollectedNames(rows)
  {
    names := [];
    for k := 0 to |rows|
      invariant names == AddAll([], RawNames(rows[..k]))
    {
      assert rows[..k + 1][..k] == rows[..k];
      AddAllAppend([], RawNames(rows[..k]), RowNames(rows[k]));
      names := AddRowNames(names, rows[k]);
    }
    assert rows[..|rows|] == rows;
  }

  /** The body of the row loop: add the names of one row to the set. */
  method AddRowNames(names0: seq<string>, row: Row) returns (names: seq<string>)
    ensures names == AddAll(names0, RowNames(row))
  {
    names := names0;
    if Filled(row.paidBy) {
      names := Add(names, Trim(row.paidBy.value));
    }
    assert names == AddAll(names0, PayerNames(row));
    var afterPayer := names;
    if Filled(row.giftTo) {
      names := Add(names, Trim(row.giftTo.value));
    }
    assert names == AddAll(afterPayer, GiftNames(row));
    var afterGift := names;
    if Filled(row.beneficiaries) {
      names := AddPieceNames(names, Split(row.beneficiaries.value, ','));
    }
    assert names == AddAll(afterGift, BeneficiaryNames(row));
    var afterBeneficiaries := names;
    if Filled(row.splitData) {
      names := AddPairNames(names, Split(row.splitData.value, ','));
    }
    assert names == AddAll(afterBeneficiaries, SplitDataNames(row));
    AddAllAppend(names0, PayerNames(row), GiftNames(row));
    AddAllAppend(names0, PayerNames(row) + GiftNames(row), BeneficiaryNames(row));
    AddAllAppend(names0, PayerNames(row) + GiftNames(row) + BeneficiaryNames(row), SplitDataNames(row));
  }

  /** `row.Beneficiaries.split(',').forEach(...)`. */
  method AddPieceNames(names0: seq<string>, pieces: seq<string>) returns (names: seq<string>)
    ensures names == AddAll(names0, PieceNames(pieces))
  {
    names := names0;
    for j := 0 to |pieces|
      invariant names == AddAll(names0, PieceNames(pieces[..j]))
    {
      PieceNamesStep(names0, pieces, j);
      var member := Trim(pieces[j]);
      if member != "" {
        names := Add(names, member);
      }
    }
    assert pieces[..|pieces|] == pieces;
  }

  lemma PieceNamesStep(names0: seq<string>, pieces: seq<string>, j: nat)
    requires j < |pieces|
    ensures AddAll(names0, PieceNames(pieces[..j + 1])) ==
      if Trim(pieces[j]) != "" then Add(AddAll(names0, PieceNames(pieces[..j])), Trim(pieces[j]))
      else AddAll(names0, PieceNames(pieces[..j]))
  {
    assert pieces[..j + 1][..j] == pieces[..j];
    var init := PieceNames(pieces[..j]);
    if Trim(pieces[j]) != "" {
      assert (init + [Trim(pieces[j])])[..|init|] == init;
    }
  }

  /** `row['Split Data'].split(',').forEach(...)`. */
  method AddPairNames(names0: seq<string>, pairs: seq<string>) returns (names: seq<string>)
    ensures names == AddAll(names0, PairNames(pairs))
  {
    names := names0;
    for j := 0 to |pairs|
      invariant names == AddAll(names0, PairNames(pairs[..j]))
    {
      assert pairs[..j + 1][..j] == pairs[..j];
      var member := Split(pairs[j], ':')[0];
      if member != "" {
        names := Add(names, Trim(member));
      }
    }
    assert pairs[..|pairs|] == pairs;
  }

  /** Some piece trims to `x`. */
  predicate HasPiece(pieces: seq<string>, x: string) {
    exists p :: p in pieces && Trim(p) == x
  }

  /** Some piece has a non-empty name before ':' that trims to `x`. */
  predicate HasPairName(pairs: seq<string>, x: string) {
    exists p :: p in pairs && PairMember(p) != "" && Trim(PairMember(p)) == x
  }

  lemma HasPieceSnoc(init: seq<string>, last: string, x: string)
    ensures HasPiece(init + [last], x) <==> HasPiece(init, x) || Trim(last) == x
  {
    if HasPiece(init + [last], x) {
      var p :| p in init + [last] && Trim(p) == x;
      if p != last { assert p in init; }
    }
    if HasPiece(init, x) {
      var p :| p in init && Trim(p) == x;
      assert p in init + [last];
    }
    if Trim(last) == x { assert last in init + [last]; }
  }

  lemma HasPairNameSnoc(init: seq<string>, last: string, x: string)
    ensures HasPairName(init + [last], x) <==>
      HasPairName(init, x) || (PairMember(last) != "" && Trim(PairMember(last)) == x)
  {
    if HasPairName(init + [last], x) {
      var p :| p in init + [last] && PairMember(p) != "" && Trim(PairMember(p)) == x;
      if p != last { assert p in init; }
    }
    if HasPairName(init, x) {
      var p :| p in init && PairMember(p) != "" && Trim(PairMember(p)) == x;
      assert p in init + [last];
    }
    if PairMember(last) != "" && Trim(PairMember(last)) == x { assert last in init + [last]; }
  }

  lemma {:induction false} PieceNamesHas(pieces: seq<string>, x: string)
    ensures x in PieceNames(pieces) <==> x != "" && HasPiece(pieces, x)
  {
    if pieces != [] {
      var init, last := pieces[..|pieces| - 1], pieces[|pieces| - 1];
      PieceNamesHas(init, x);
      assert pieces == init + [last];
      HasPieceSnoc(init, last, x);
    }
  }

  lemma {:induction false} PairNamesHas(pairs: seq<string>, x: string)
    ensures x in PairNames(pairs) <==> HasPairName(pairs, x)
  {
    if pairs != [] {
      var init, last := pairs[..|pairs| - 1], pairs[|pairs| - 1];
      PairNamesHas(init, x);
      assert pairs == init + [last];
      HasPairNameSnoc(init, last, x);
    }
  }

  /** The names taken from a row: Paid By, Gift To, each non-blank
      trimmed beneficiary and each split-data name. */
  lemma RowNamesHas(row: Row, x: string)
    ensures x in RowNames(row) <==>
      (Filled(row.paidBy) && x == Trim(row.paidBy.value)) ||
      (Filled(row.giftTo) && x == Trim(row.giftTo.value)) ||
      (Filled(row.beneficiaries) && x != "" && HasPiece(Split(row.beneficiaries.value, ','), x)) ||
      (Filled(row.splitData) && HasPairName(Split(row.splitData.value, ','), x))
  {
    if Filled(row.beneficiaries) { PieceNamesHas(Split(row.beneficiaries.value, ','), x); }
    if Filled(row.splitData) { PairNamesHas(Split(row.splitData.value, ','), x); }
  }

  lemma CollectedNamesHold(rows: seq<Row>, x: string)
    ensures x in CollectedNames(rows) <==> exists i :: 0 <= i < |rows| && x in RowNames(rows[i])
    ensures NoDup(CollectedNames(rows))
  {
    AddAllHas([], RawNames(rows), x);
    FlatMapHas(rows, RowNames, x);
    AddAllNoDup([], RawNames(rows));
  }

  // ---------------------------------------------------------------------
  // Unmatched names and the import decision

  /** `members.some(t => t.toLowerCase() === x.toLowerCase())`. */
  predicate KnownName(members: seq<string>, x: string) {
    exists t :: t in members && SameIgnoringCase(t, x)
  }

  /** The dialog's `.some` check and the mapping dialog's `.find` agree:
      a name is known exactly when a case-insensitive match exists. */
  lemma KnownNameIsMatch(members: seq<string>, x: string)
    ensures KnownName(members, x) <==> FirstMatch(members, x).Some?
  {
  }

  /** `names.filter(x => !members.some(...))`, order kept. */
  function Unmatched(names: seq<string>, members: seq<string>): (r: seq<string>)
    ensures forall x :: x in r <==> x in names && !KnownName(members, x)
  {
    if names == [] then []
    else
      var u := Unmatched(names[..|names| - 1], members);
      var x := names[|names| - 1];
      assert names == names[..|names| - 1] + [x];
      if KnownName(members, x) then u else u + [x]
  }

  /** How `handleImport` ends once the sheet was read. */
  datatype Outcome =
    | Rejected(validation: Validation)     // validation failed: nothing imported
    | NeedsMapping(excelMembers: seq<string>) // the mapping dialog opens with these names
    | Imported(expenses: seq<Expense>)      // imported directly

  /** The decision in `handleImport`, as written: valid rows whose names
      all match a trip member ignoring case are imported with the EMPTY
      mapping. */
  function HandleImport(host: Host, members: seq<string>, rows: seq<Row>): (o: Outcome)
    ensures o.Rejected? <==> !Validate(host, Some(rows)).isValid
    ensures o.Rejected? ==> o.validation == Validate(host, Some(rows))
    ensures o.Imported? <==>
      Validate(host, Some(rows)).isValid && forall x :: x in CollectedNames(rows) ==> KnownName(members, x)
    ensures o.NeedsMapping? ==> o.excelMembers == CollectedNames(rows)
    ensures o.NeedsMapping? ==> exists x :: x in o.excelMembers && !KnownName(members, x)
    ensures o.Imported? ==> o.expenses == ProcessExpenses(host, rows, map[])
  {
    var v := Validate(host, Some(rows));
    if !v.isValid then Rejected(v)
    else
      var names := CollectedNames(rows);
      var unmatched := Unmatched(names, members);
      if unmatched != [] then
        assert unmatched[0] in unmatched;
        NeedsMapping(names)
      else Imported(ProcessExpenses(host, rows, map[]))
  }

  /** `handleMemberMappingConfirm`: the rows kept while the dialog was
      open, converted under the mapping the dialog returns. */
  function ConfirmMapping(host: Host, rows: seq<Row>, mapping: map<string, string>): (es: seq<Expense>)
    ensures |es| == |rows|
    ensures forall i :: 0 <= i < |rows| ==> es[i].paidBy == MapMember(mapping, rows[i].paidBy.GetOr(""))
  {
    ProcessExpenses(host, rows, mapping)
  }

  // ---------------------------------------------------------------------
  // Finding: the direct path loses names that differ only in case

  /** A valid one-row sheet paid by "alice" for a trip with member
      "Alice" is imported directly, the payer stays "alice", and
      `calculateBalances` then credits Alice with nothing. */
  lemma DirectImportLosesPayer(host: Host)
    requires host.parseFloat("10") == Some(10.0) && host.dateParses("2024-01-01")
    ensures var rows := [Row(Some("2024-01-01"), Some("alice"), Some("10"), Some("alice"), None, None, None, None, None)];
      var o := HandleImport(host, ["Alice"], rows);
      o.Imported? && |o.expenses| == 1 && o.expenses[0].paidBy == "alice" && o.expenses[0].amount == 10.0 &&
      TotalPaid(o.expenses, "Alice") == 0.0
  {
    var row := Row(Some("2024-01-01"), Some("alice"), Some("10"), Some("alice"), None, None, None, None, None);
    var rows := [row];
    ValidSampleRow(host, row);
    assert ErrorsOf(host, rows) == ErrorsOf(host, []) + RowErrors(host, 1, row);
    SampleTexts();
    SampleNamesKnown(rows, "alice", "Alice");
    var es := HandleImport(host, ["Alice"], rows).expenses;
    assert es[..0] == [];
  }

  /** The sample row has no validation error. */
  lemma ValidSampleRow(host: Host, row: Row)
    requires host.parseFloat("10") == Some(10.0) && host.dateParses("2024-01-01")
    requires row == Row(Some("2024-01-01"), Some("alice"), Some("10"), Some("alice"), None, None, None, None, None)
    ensures RowErrors(host, 1, row) == []
  {
    var errors := RowErrors(host, 1, row);
    if errors != [] {
      var x := errors[0];
      assert x in errors;
      RowErrorsName(host, 1, row, x);
      RequiredFields(host, 1, row);
      GiftRules(host, 1, row);
      AbsentSplitTypeOk(host, 1, row);
      match x.kind
      case PercentNot100(t) =>
        PercentRule(host, 1, row, t);
        assert false;
      case _ =>
        assert false;
    }
  }

  /** The only name the sample mentions is "alice", which "Alice" matches
      ignoring case. */
  lemma SampleNamesKnown(rows: seq<Row>, a: string, member: string)
    requires PlainName(a) && SameIgnoringCase(member, a)
    requires |rows| == 1 && rows[0].paidBy == Some(a) && rows[0].beneficiaries == Some(a)
    requires rows[0].giftTo.None? && rows[0].splitData.None?
    ensures Unmatched(CollectedNames(rows), [member]) == []
  {
    assert RawNames(rows) == [a, a] by {
      SampleRowNames(rows[0], a);
      FlatMapOne(rows, RowNames);
    }
    AddTwice(a);
    assert KnownName([member], a) by {
      assert member in [member];
    }
    assert [a][..0] == [];
  }

  /** The sample row contributes its payer and its one beneficiary. */
  lemma SampleRowNames(row: Row, a: string)
    requires PlainName(a)
    requires row.paidBy == Some(a) && row.beneficiaries == Some(a)
    requires row.giftTo.None? && row.splitData.None?
    ensures RowNames(row) == [a, a]
  {
    TrimOfTrimmed(a);
    SplitPiece(a, ',');
    assert PieceNames([a]) == [a] by {
      assert [a][..0] == [];
    }
  }

  /** The texts of the sample. */
  lemma SampleTexts()
    ensures PlainName("alice") && SameIgnoringCase("Alice", "alice") && "alice" != "Alice"
  {
    assert !IsSpace("alice"[0]) && !IsSpace("alice"[4]);
    assert ToLower("Alice") == "alice";
    assert "alice"[0] != "Alice"[0];
  }

  // ---------------------------------------------------------------------
  // Corrected import

  /** The row conversion with the payer trimmed before mapping, as every
      other name is. */
  function ProcessRowFixed(host: Host, mapping: map<string, string>, index: nat, row: Row): (e: Expense)
    ensures e.paidBy == MapMember(mapping, Trim(row.paidBy.GetOr("")))
  {
    ProcessRow(host, mapping, index, row).(paidBy := MapMember(mapping, Trim(row.paidBy.GetOr(""))))
  }

  function ProcessExpensesFixed(host: Host, rows: seq<Row>, mapping: map<string, string>): (es: seq<Expense>)
    ensures |es| == |rows|
    ensures forall i :: 0 <= i < |rows| ==> es[i] == ProcessRowFixed(host, mapping, i, rows[i])
  {
    seq(|rows|, i requires 0 <= i < |rows| => ProcessRowFixed(host, mapping, i, rows[i]))
  }

  /** The decision with the direct path mapping every name to its first
      case-insensitive match, as the mapping dialog would. */
  function HandleImportFixed(host: Host, members: seq<string>, rows: seq<Row>): (o: Outcome)
    ensures o.Rejected? <==> !Validate(host, Some(rows)).isValid
    ensures o.Rejected? ==> o.validation == Validate(host, Some(rows))
    ensures o.Imported? <==>
      Validate(host, Some(rows)).isValid && forall x :: x in CollectedNames(rows) ==> KnownName(members, x)
    ensures o.NeedsMapping? ==> o.excelMembers == CollectedNames(rows)
    ensures o.NeedsMapping? ==> exists x :: x in o.excelMembers && !KnownName(members, x)
    ensures o.Imported? ==> o.expenses == ProcessExpensesFixed(host, rows, AutoMapping(CollectedNames(rows), members))
  {
    var v := Validate(host, Some(rows));
    if !v.isValid then Rejected(v)
    else
      var names := CollectedNames(rows);
      var unmatched := Unmatched(names, members);
      if unmatched != [] then
        assert unmatched[0] in unmatched;
        NeedsMapping(names)
      else Imported(ProcessExpensesFixed(host, rows, AutoMapping(names, members)))
  }

  /** After a corrected direct import every payer is a trip member, so
      `calculateBalances` credits every amount. */
  lemma FixedImportPayersAreMembers(host: Host, members: seq<string>, rows: seq<Row>, i: nat)
    requires HandleImportFixed(host, members, rows).Imported?
    requires i < |rows|
    ensures HandleImportFixed(host, members, rows).expenses[i].paidBy in members
  {
    var names := CollectedNames(rows);
    ValidRowHasPayer(host, rows, i);
    var x := Trim(rows[i].paidBy.value);
    PayerCollected(rows, i);
    AutoMappedIsMember(names, members, x);
  }

  /** Every row of a valid sheet has a payer. */
  lemma ValidRowHasPayer(host: Host, rows: seq<Row>, i: nat)
    requires Validate(host, Some(rows)).isValid && i < |rows|
    ensures Filled(rows[i].paidBy)
  {
    ErrorsAreByRow(host, rows, i + 1, PaidByRequired);
    RequiredFields(host, i + 1, rows[i]);
  }

  /** A row's trimmed payer is among the collected names. */
  lemma PayerCollected(rows: seq<Row>, i: nat)
    requires i < |rows| && Filled(rows[i].paidBy)
    ensures Trim(rows[i].paidBy.value) in CollectedNames(rows)
  {
    var x := Trim(rows[i].paidBy.value);
    assert x in RowNames(rows[i]);
    CollectedNamesHold(rows, x);
  }

  /** A name that matches a member ignoring case is mapped by the
      auto-mapping to a member. */
  lemma AutoMappedIsMember(names: seq<string>, members: seq<string>, x: string)
    requires x in names && KnownName(members, x)
    ensures MapMember(AutoMapping(names, members), x) in members
  {
    var hit := FirstMatch(members, x);
    AutoMappingMaps(names, members, x);
    if hit.value == "" {
      assert |ToLower(x)| == 0;
    }
  }
}
