/** The statement-of-service ledger without pages: the post-type to DR/CR
  * table, the merged rows, the side-panel filters and column sorting. */
module SosLedger {
  import opened Seqs
  import opened Objects
  import opened Sorting
  import opened Ledger

  /** `postTypeToDRCRMap`, entry by entry as the literal writes them; OO
    * appears twice. */
  const DrcrEntries: seq<Entry<string>> := [
    Entry("OP", "DR"), Entry("OPV", "DR"), Entry("GE", "DR"), Entry("GEVU", "DR"),
    Entry("OR", "CR"), Entry("CP", "DR"), Entry("CR", "CR"), Entry("OC", "DR"),
    Entry("CO", "CR"), Entry("CC", "CR"), Entry("OO", "CR"), Entry("NP", "DR"),
    Entry("NR", "CR"), Entry("DP", "DR"), Entry("DR", "CR"), Entry("CD", "DR"),
    Entry("DC", "CR"), Entry("OO", "DR")]

  const DrcrMap: seq<Entry<string>> := ObjectLiteral(DrcrEntries)

  /** `getDRCR`: the mapped code, or blank for a post type the table lacks. */
  function GetDrcr(postType: string): string {
    match Lookup(DrcrMap, postType)
    case Some(code) => code
    case None => ""
  }


  /** `getDRCR` reads the last entry written for the post type, or blank. */
  lemma GetDrcrLast(postType: string)
    ensures GetDrcr(postType) == match LastWritten(DrcrEntries, postType) case Some(c) => c case None => ""
  {
    ObjectLiteralLookup(DrcrEntries, postType);
  }

  /** OO is written twice; its second entry, DR, wins. */
  lemma GetDrcrDuplicate()
    ensures GetDrcr("OO") == "DR"
  {
    GetDrcrLast("OO");
    assert DrcrEntries[17].key == "OO";
  }

  /** A post type the table lacks gives blank. */
  lemma GetDrcrUnknown(postType: string)
    requires postType !in Keys(DrcrEntries)
    ensures GetDrcr(postType) == ""
  {
    GetDrcrLast(postType);
    LastWrittenNone(DrcrEntries, postType);
  }

  /** Every answer is DR, CR or blank, and a non-blank one is the value of
    * one of the table's entries for that post type. */
  lemma GetDrcrCodes(postType: string)
    ensures GetDrcr(postType) in ["DR", "CR", ""]
    ensures GetDrcr(postType) != "" ==>
      exists i :: 0 <= i < |DrcrEntries| && DrcrEntries[i] == Entry(postType, GetDrcr(postType))
  {
    GetDrcrLast(postType);
    LastWrittenSome(DrcrEntries, postType);
    if LastWritten(DrcrEntries, postType).Some? {
      var i :| 0 <= i < |DrcrEntries| && DrcrEntries[i].key == postType && DrcrEntries[i].value == LastWritten(DrcrEntries, postType).value;
      assert DrcrEntries[i].value in ["DR", "CR"];
    }
  }

  /** The code DR itself is booked as a credit. */
  lemma GetDrcrOfDr()
    ensures GetDrcr("DR") == "CR"
  {
    GetDrcrLast("DR");
    var es := DrcrEntries;
    LastWrittenStep(es, 18, "DR");
    LastWrittenStep(es, 17, "DR");
    LastWrittenStep(es, 16, "DR");
    LastWrittenStep(es, 15, "DR");
    assert es[..18] == es;
  }

  /** `transformData`: the ledger rows followed by the post-slip rows. */
  function TransformData(ledger: seq<LedgerItem>, postSlips: Option<seq<PostSlipItem>>): seq<Row> {
    MergedRows(ledger, postSlips)
  }

  /** One row per record, in record order: first every ledger record, then
    * every post slip when there are any. */
  lemma TransformDataRows(ledger: seq<LedgerItem>, postSlips: Option<seq<PostSlipItem>>)
    ensures |TransformData(ledger, postSlips)| == |ledger| + (if postSlips.Some? then |postSlips.value| else 0)
    ensures forall i :: 0 <= i < |ledger| ==> TransformData(ledger, postSlips)[i] == LedgerRow(ledger[i])
    ensures postSlips.Some? ==> forall i :: 0 <= i < |postSlips.value| ==>
      TransformData(ledger, postSlips)[|ledger| + i] == PostSlipRow(postSlips.value[i])
  {
    var front := Map(ledger, LedgerRow);
    var back := if postSlips.Some? then Map(postSlips.value, PostSlipRow) else [];
    var r := TransformData(ledger, postSlips);
    assert r == front + back;
    forall i | 0 <= i < |ledger| ensures r[i] == LedgerRow(ledger[i]) {
      assert r[i] == front[i];
    }
    if postSlips.Some? {
      forall i | 0 <= i < |postSlips.value| ensures r[|ledger| + i] == PostSlipRow(postSlips.value[i]) {
        assert r[|ledger| + i] == back[i];
      }
    }
  }

  class LedgerTable {
    var data: seq<Row>
    var filteredData: seq<Row>
    var filters: Filters
    var statusOptions: seq<string>
    var sortDirection: Direction
    var sortedBy: Option<Column>

    constructor ()
      ensures data == [] && filteredData == [] && statusOptions == []
      ensures filters == NoFilters && sortDirection == Asc && sortedBy == None
    {
      data := [];
      filteredData := [];
      filters := NoFilters;
      statusOptions := [];
      sortDirection := Asc;
      sortedBy := None;
    }

    /** `fetchSOSData`, after the records arrive: every row is shown. */
    method Load(ledger: seq<LedgerItem>, postSlips: Option<seq<PostSlipItem>>)
      modifies this
      ensures data == TransformData(ledger, postSlips) && filteredData == data
      ensures statusOptions == StatusOptions(data)
      ensures filters == old(filters) && sortDirection == old(sortDirection) && sortedBy == old(sortedBy)
    {
      var rows := TransformData(ledger, postSlips);
      Show(rows);
    }

    /** The rows of a fetch become the data and the shown rows. */
    method Show(rows: seq<Row>)
      modifies this
      ensures data == rows && filteredData == rows
      ensures statusOptions == StatusOptions(rows)
      ensures filters == old(filters) && sortDirection == old(sortDirection) && sortedBy == old(sortedBy)
    {
      data := rows;
      filteredData := rows;
      statusOptions := StatusOptions(rows);
    }

    /** `filterData`: the rows of `data` that pass every filter, in order. */
    method FilterData()
      modifies this`filteredData
      ensures filteredData == FilterRows(data, filters)
      ensures data == old(data) && filters == old(filters) && statusOptions == old(statusOptions)
      ensures sortDirection == old(sortDirection) && sortedBy == old(sortedBy)
    {
      filteredData := FilterRows(data, filters);
    }

    method HandleStatusChange(statuses: seq<string>)
      modifies this`filters, this`filteredData
      ensures filters == old(filters).(statuses := statuses) && data == old(data)
      ensures filteredData == FilterRows(data, filters)
      ensures statusOptions == old(statusOptions) && sortDirection == old(sortDirection) && sortedBy == old(sortedBy)
    {
      filters := filters.(statuses := statuses);
      FilterData();
    }

    method HandleFromDateChange(fromDate: Option<Date>)
      modifies this`filters, this`filteredData
      ensures filters == old(filters).(fromDate := fromDate) && data == old(data)
      ensures filteredData == FilterRows(data, filters)
      ensures statusOptions == old(statusOptions) && sortDirection == old(sortDirection) && sortedBy == old(sortedBy)
    {
      filters := filters.(fromDate := fromDate);
      FilterData();
    }

    method HandleToDateChange(toDate: Option<Date>)
      modifies this`filters, this`filteredData
      ensures filters == old(filters).(toDate := toDate) && data == old(data)
      ensures filteredData == FilterRows(data, filters)
      ensures statusOptions == old(statusOptions) && sortDirection == old(sortDirection) && sortedBy == old(sortedBy)
    {
      filters := filters.(toDate := toDate);
      FilterData();
    }

    method HandleDescriptionChange(description: string)
      modifies this`filters, this`filteredData
      ensures filters == old(filters).(description := description) && data == old(data)
      ensures filteredData == FilterRows(data, filters)
      ensures statusOptions == old(statusOptions) && sortDirection == old(sortDirection) && sortedBy == old(sortedBy)
    {
      filters := filters.(description := description);
      FilterData();
    }

    /** `clearDateFilters`: the empty strings it assigns are falsy, so both
      * bounds are off. */
    method ClearDateFilters()
      modifies this`filters, this`filteredData
      ensures filters == old(filters).(fromDate := None, toDate := None) && data == old(data)
      ensures filteredData == FilterRows(data, filters)
      ensures statusOptions == old(statusOptions) && sortDirection == old(sortDirection) && sortedBy == old(sortedBy)
    {
      filters := filters.(fromDate := None, toDate := None);
      FilterData();
    }

    /** `clearAllFilters`: every row is shown again, in the order of `data`. */
    method ClearAllFilters()
      modifies this`filters, this`filteredData
      ensures filters == NoFilters && data == old(data)
      ensures filteredData == data
      ensures statusOptions == old(statusOptions) && sortDirection == old(sortDirection) && sortedBy == old(sortedBy)
    {
      filters := NoFilters;
      FilterData();
      FilterRowsCleared(data);
    }

    /** `onHandleSort`: the shown rows reordered by the column, the same
      * column toggling the direction. */
    method OnHandleSort(column: Column, requested: Direction)
      modifies this`sortDirection, this`filteredData, this`sortedBy
      ensures sortDirection == NextSortDirection(old(sortedBy), old(sortDirection), column, requested)
      ensures sortedBy == Some(column)
      ensures filteredData == SortBy(old(filteredData), ColumnKey(column), sortDirection)
      ensures data == old(data) && filters == old(filters) && statusOptions == old(statusOptions)
    {
      sortDirection := NextSortDirection(sortedBy, sortDirection, column, requested);
      filteredData := SortBy(filteredData, ColumnKey(column), sortDirection);
      sortedBy := Some(column);
    }
  }
}
