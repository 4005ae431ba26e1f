/** The accruals a user can pick for reversal: ledger records that are not
  * themselves reversals, with their transaction and SOS codes and the
  * amount to reverse, in a table the user can sort. */
module SosReverseAccrual {
  import opened Seqs
  import opened Text
  import opened Sorting
  import opened UkDates

  /** A record of the accounts ledger as this table reads it. */
  datatype LedgerRecord = LedgerRecord(postDate: Date, officeDebit: int, officeCredit: int, reference: string, narrative: string)

  /** A row of the table; the day is the text the table shows. */
  datatype AccrualRow = AccrualRow(
    datePosted: string,
    transactionCode: string,
    amount: int,
    reference: string,
    narrative: string,
    sosCode: string)

  /** A record is offered unless its trimmed narrative mentions "Reversal of". */
  predicate Offered(item: LedgerRecord) {
    !Contains(Trim(item.narrative), "Reversal of")
  }

  /** `narrative.slice(0, 3)`. */
  function Slice3(s: string): string {
    if |s| <= 3 then s else s[..3]
  }

  /** The transaction code and the SOS code of a narrative: ARE2 for an EA
    * narrative, APE1 for an EL one, each with the narrative's first three
    * characters; two blanks otherwise. */
  function Codes(narrative: string): (string, string) {
    if StartsWith(narrative, "EA") then ("ARE2", Slice3(narrative))
    else if StartsWith(narrative, "EL") then ("APE1", Slice3(narrative))
    else ("", "")
  }

  /** The office debit when it is not zero, else the office credit. */
  function Amount(officeDebit: int, officeCredit: int): int {
    if officeDebit != 0 then officeDebit
    else if officeCredit != 0 then officeCredit
    else 0
  }

  function RowOf(item: LedgerRecord): AccrualRow {
    var narrative := Trim(item.narrative);
    var (transactionCode, sosCode) := Codes(narrative);
    AccrualRow(FormatUkDate(item.postDate), transactionCode, Amount(item.officeDebit, item.officeCredit),
               item.reference, narrative, sosCode)
  }

  /** `transformData`. */
  function TransformData(ledger: seq<LedgerRecord>): seq<AccrualRow> {
    Map(Filter(ledger, Offered), RowOf)
  }

  /** Records are taken one by one: a reversal gives nothing, any other
    * record its own row, after the rows of the records before it. */
  lemma TransformDataSnoc(ledger: seq<LedgerRecord>, item: LedgerRecord)
    ensures TransformData(ledger + [item]) ==
      TransformData(ledger) + (if Offered(item) then [RowOf(item)] else [])
  {
    var kept := Filter(ledger, Offered);
    var extra := Filter([item], Offered);
    FilterAppend(ledger, [item], Offered);
    FilterSingleton(item, Offered);
    MapAppend(kept, extra, RowOf);
    assert Map(extra, RowOf) == if Offered(item) then [RowOf(item)] else [];
  }

  /** No row offered for reversal is itself a reversal. */
  lemma TransformDataNoReversals(ledger: seq<LedgerRecord>)
    ensures forall i :: 0 <= i < |TransformData(ledger)| ==>
      !Contains(TransformData(ledger)[i].narrative, "Reversal of")
  {
    var kept := Filter(ledger, Offered);
    forall i | 0 <= i < |TransformData(ledger)|
      ensures !Contains(TransformData(ledger)[i].narrative, "Reversal of")
    {
      assert Offered(kept[i]);
    }
  }

  /** The codes, case by case. */
  lemma CodesCases(narrative: string)
    ensures StartsWith(narrative, "EA") ==> Codes(narrative).0 == "ARE2"
    ensures !StartsWith(narrative, "EA") && StartsWith(narrative, "EL") ==> Codes(narrative).0 == "APE1"
    ensures Codes(narrative).0 == "" <==> !StartsWith(narrative, "EA") && !StartsWith(narrative, "EL")
    ensures Codes(narrative).1 == "" <==> Codes(narrative).0 == ""
    ensures Codes(narrative).0 != "" ==>
      |Codes(narrative).1| == (if |narrative| < 3 then |narrative| else 3) &&
      StartsWith(narrative, Codes(narrative).1)
  {
    if StartsWith(narrative, "EA") || StartsWith(narrative, "EL") {
      assert |narrative| >= 2;
      assert |Slice3(narrative)| >= 2;
    }
  }

  /** The amount is one of the two office amounts, and is zero only when
    * both are. */
  lemma AmountChoice(officeDebit: int, officeCredit: int)
    ensures Amount(officeDebit, officeCredit) == officeDebit || Amount(officeDebit, officeCredit) == officeCredit
    ensures Amount(officeDebit, officeCredit) == 0 <==> officeDebit == 0 && officeCredit == 0
    ensures officeDebit != 0 ==> Amount(officeDebit, officeCredit) == officeDebit
  {
  }

  /** A row keeps the record's reference and its trimmed narrative, and
    * shows the record's day. */
  lemma RowOfCarries(item: LedgerRecord)
    ensures RowOf(item).reference == item.reference
    ensures RowOf(item).narrative == Trim(item.narrative)
    ensures ParseUkDate(RowOf(item).datePosted) == Some(item.postDate)
  {
    ParseFormatUkDate(item.postDate);
  }

  /** The columns of the table. */
  datatype Column = DatePosted | TransactionCode | AmountColumn | Narrative | SosCode

  /** What the table sorts by as written: the Date Posted column is `text`
    * and `sortBy` gets no primer, so its day-first text is compared as text. */
  function WrittenColumnKey(c: Column): AccrualRow -> Key {
    (r: AccrualRow) =>
      match c
      case DatePosted => TextKey(r.datePosted)
      case TransactionCode => TextKey(r.transactionCode)
      case AmountColumn => NumKey(r.amount)
      case Narrative => TextKey(r.narrative)
      case SosCode => TextKey(r.sosCode)
  }

  /** As written, 1 February sorts before 2 January in ascending order: the
    * texts "01/02/2024" and "02/01/2024" differ first in the day. */
  lemma WrittenDateSortMisorders()
    ensures var feb1 := Date(2024, 2, 1);
      var jan2 := Date(2024, 1, 2);
      var a := AccrualRow(FormatUkDate(feb1), "", 0, "", "", "");
      var b := AccrualRow(FormatUkDate(jan2), "", 0, "", "", "");
      CompareDates(feb1, jan2) > 0 &&
      SortCompare(WrittenColumnKey(DatePosted)(a), WrittenColumnKey(DatePosted)(b), Asc) < 0
  {
    var a := FormatUkDate(Date(2024, 2, 1));
    var b := FormatUkDate(Date(2024, 1, 2));
    assert a[0] == b[0] == '0' && a[1] == '1' && b[1] == '2';
    assert CompareStrings(a, b) == CompareStrings(a[1..], b[1..]);
  }

  /** The key of a day shown in the table: the day the text names, as the
    * other ledgers' `parseUKDate` primer reads it. */
  function DayKey(text: string): Key {
    match ParseUkDate(text)
    case Some(d) => DateKey(d)
    case None => TextKey(text)
  }

  /** What the table sorts by: days in calendar order, the rest as written. */
  function ColumnKey(c: Column): AccrualRow -> Key {
    (r: AccrualRow) => if c == DatePosted then DayKey(r.datePosted) else WrittenColumnKey(c)(r)
  }

  /** Rows made from records sort by day in calendar order. */
  lemma ColumnKeyCalendarOrder(x: LedgerRecord, y: LedgerRecord, dir: Direction)
    ensures SortCompare(ColumnKey(DatePosted)(RowOf(x)), ColumnKey(DatePosted)(RowOf(y)), dir) ==
      Reverse(dir) * CompareDates(x.postDate, y.postDate)
  {
    DayKeyOfRow(x);
    DayKeyOfRow(y);
  }

  lemma DayKeyOfRow(x: LedgerRecord)
    ensures ColumnKey(DatePosted)(RowOf(x)) == DateKey(x.postDate)
  {
    var text := RowOf(x).datePosted;
    assert text == FormatUkDate(x.postDate);
    ParseFormatUkDate(x.postDate);
    assert DayKey(text) == DateKey(x.postDate);
  }

  /** Every other column sorts as written. */
  lemma ColumnKeyOtherColumns(c: Column, r: AccrualRow)
    requires c != DatePosted
    ensures ColumnKey(c)(r) == WrittenColumnKey(c)(r)
  {
  }

  class ReverseAccrualTable {
    var data: seq<AccrualRow>
    var filteredData: seq<AccrualRow>
    var sortDirection: Direction
    var sortedBy: Option<Column>

    constructor ()
      ensures data == [] && filteredData == [] && sortDirection == Asc && sortedBy == None
    {
      data := [];
      filteredData := [];
      sortDirection := Asc;
      sortedBy := None;
    }

    /** `fetchSOSData`, after the records arrive: every row is shown. */
    method Load(ledger: seq<LedgerRecord>)
      modifies this
      ensures data == TransformData(ledger) && filteredData == data
      ensures sortDirection == old(sortDirection) && sortedBy == old(sortedBy)
    {
      data := TransformData(ledger);
      filteredData := data;
    }

    /** `onHandleSort`: the shown rows reordered by the column in the
      * direction the table reports; there is no toggle. This is the corrected
      * sort: `ColumnKey` orders Date Posted by calendar day, where the source
      * compares the `dd/mm/yyyy` text (`WrittenDateSortMisorders`). */
    method OnHandleSort(column: Column, direction: Direction)
      modifies this
      ensures filteredData == SortBy(old(filteredData), ColumnKey(column), direction)
      ensures sortDirection == direction && sortedBy == Some(column) && data == old(data)
    {
      filteredData := SortBy(filteredData, ColumnKey(column), direction);
      sortDirection := direction;
      sortedBy := Some(column);
    }
  }
}
