/** The estate and accrual grid of a case: the editable record, its assets
  * and liabilities tables with one blank row each for new entries, the split
  * of edited rows into updates and creations, and the column sort. */
module EstateGrid {
  import opened Seqs
  import opened Text
  import opened Sorting

  /** A field value of a row: a missing or null value, an amount in pence, or text. */
  datatype Scalar = Null | Num(n: int) | Str(s: string)

  /** A table row, or a draft of one, as a JavaScript object of fields. */
  type Row = map<string, Scalar>

  /** The estate and accrual record: its own fields and its two child lists,
    * each of which may be missing. */
  datatype EstateAcc = EstateAcc(fields: map<string, Scalar>, assets: Option<seq<Row>>, liabilities: Option<seq<Row>>)

  datatype Column = Column(title: string, fieldName: string, columnType: string)

  const AccrualsColumns: seq<Column> := [
    Column("Date of Death Value", "Date_of_Death_Value__c", "currency"),
    Column("Accruals Asset Value", "Accruals_Asset_Value__c", "currency"),
    Column("Asset Holder Name & Ref Number", "Asset_Holder_Name_and_Ref_Number__c", "text"),
    Column("Value of Assets Collected", "Value_of_Assets_Collected__c", "currency")]

  const LiabilitiesColumns: seq<Column> := [
    Column("Liability at Date of Death", "Liability_at_Date_of_Death__c", "currency"),
    Column("Accruals Liability Value", "Accruals_Liability_Value__c", "currency"),
    Column("Liability Owed To & Reason", "Liability_owed_to_and_reason__c", "text"),
    Column("Liabilities Paid", "Liabilities_Paid__c", "currency")]

  predicate Truthy(v: Scalar) {
    match v
    case Null => false
    case Num(n) => n != 0
    case Str(s) => s != ""
  }

  function Field(row: Row, name: string): Scalar {
    if name in row then row[name] else Null
  }

  /** `row.Id` is set. */
  predicate HasId(row: Row) {
    Truthy(Field(row, "Id"))
  }

  /** The text a regular expression tests a value as. */
  function AsText(v: Scalar): string {
    match v
    case Null => "null"
    case Num(n) => if n >= 0 then NatToString(n) else "-" + NatToString(-n)
    case Str(s) => s
  }

  /** `/^[a-zA-Z0-9]{15,18}$/`. */
  predicate IsSalesforceId(s: string) {
    15 <= |s| <= 18 && forall i :: 0 <= i < |s| ==> IsAlnum(s[i])
  }

  /** A draft row that updates a stored record. */
  predicate IsUpdate(row: Row) {
    HasId(row) && IsSalesforceId(AsText(Field(row, "Id")))
  }

  /** The blank row kept at the end of a table for a new entry. */
  function WithPlaceholder(rows: Option<seq<Row>>): seq<Row> {
    if rows.Some? && !(exists i :: 0 <= i < |rows.value| && !HasId(rows.value[i])) then rows.value + [map[]]
    else if rows.None? then [map[]]
    else rows.value
  }

  /** After the placeholder is added the table holds a row without an Id,
    * every row it had before comes first, and at most one row is added. */
  lemma PlaceholderPresent(rows: Option<seq<Row>>)
    ensures var r := WithPlaceholder(rows);
      (exists i :: 0 <= i < |r| && !HasId(r[i])) &&
      (rows.Some? ==> r[..|rows.value|] == rows.value && |r| <= |rows.value| + 1)
  {
    var r := WithPlaceholder(rows);
    if rows.None? || !(exists i :: 0 <= i < |rows.value| && !HasId(rows.value[i])) {
      assert !HasId(r[|r| - 1]);
    }
  }

  /** Adding the placeholder a second time changes nothing. */
  lemma PlaceholderIdempotent(rows: Option<seq<Row>>)
    ensures WithPlaceholder(Some(WithPlaceholder(rows))) == WithPlaceholder(rows)
  {
    PlaceholderPresent(rows);
  }

  /** Both tables with their placeholder. */
  function WithPlaceholders(acc: EstateAcc): EstateAcc {
    acc.(assets := Some(WithPlaceholder(acc.assets)), liabilities := Some(WithPlaceholder(acc.liabilities)))
  }

  /** A draft that is not an update, as it is sent for creation: without its
    * Id and linked to the estate record. */
  function NewRow(row: Row, estateAccId: Scalar): Row {
    (row - {"Id"})["Estate_and_Accrual__c" := estateAccId]
  }

  /** The drafts sent for update. */
  function UpdateBatch(drafts: seq<Row>): seq<Row> {
    Filter(drafts, (r: Row) => IsUpdate(r))
  }

  /** The drafts sent for creation. */
  function CreateBatch(drafts: seq<Row>, estateAccId: Scalar): seq<Row> {
    Map(Filter(drafts, (r: Row) => !IsUpdate(r)), (r: Row) => NewRow(r, estateAccId))
  }

  /** A creation carries no Id, is linked to the estate record and keeps
    * every other field of its draft. */
  lemma NewRowFields(row: Row, estateAccId: Scalar)
    ensures var r := NewRow(row, estateAccId);
      "Id" !in r && r["Estate_and_Accrual__c"] == estateAccId &&
      forall k :: k != "Id" && k != "Estate_and_Accrual__c" ==> (k in r <==> k in row) && (k in r ==> r[k] == row[k])
  {
  }

  /** Every draft goes to exactly one of the two batches. */
  lemma DraftPartition(drafts: seq<Row>, estateAccId: Scalar)
    ensures |UpdateBatch(drafts)| + |CreateBatch(drafts, estateAccId)| == |drafts|
    ensures forall r :: r in UpdateBatch(drafts) <==> r in drafts && IsUpdate(r)
    ensures forall d :: d in drafts && !IsUpdate(d) ==> NewRow(d, estateAccId) in CreateBatch(drafts, estateAccId)
  {
    var p := (r: Row) => IsUpdate(r);
    var q := (r: Row) => !IsUpdate(r);
    FilterSplitCount(drafts, p, q);
    forall r ensures r in UpdateBatch(drafts) <==> r in drafts && IsUpdate(r) {
      FilterMember(drafts, p, r);
    }
    forall d | d in drafts && !IsUpdate(d) ensures NewRow(d, estateAccId) in CreateBatch(drafts, estateAccId) {
      FilterMember(drafts, q, d);
      var j :| 0 <= j < |Filter(drafts, q)| && Filter(drafts, q)[j] == d;
      assert CreateBatch(drafts, estateAccId)[j] == NewRow(d, estateAccId);
    }
  }

  /** Every creation is made from a draft that is not an update. */
  lemma CreateBatchFromDrafts(drafts: seq<Row>, estateAccId: Scalar)
    ensures forall r :: r in CreateBatch(drafts, estateAccId) ==>
      exists d :: d in drafts && !IsUpdate(d) && r == NewRow(d, estateAccId)
  {
    var q := (r: Row) => !IsUpdate(r);
    forall r | r in CreateBatch(drafts, estateAccId)
      ensures exists d :: d in drafts && !IsUpdate(d) && r == NewRow(d, estateAccId)
    {
      var j :| 0 <= j < |CreateBatch(drafts, estateAccId)| && CreateBatch(drafts, estateAccId)[j] == r;
      var d := Filter(drafts, q)[j];
      assert q(d);
    }
  }

  predicate IsCurrencyField(field: string) {
    exists c :: c in AccrualsColumns + LiabilitiesColumns && c.fieldName == field && c.columnType == "currency"
  }

  /** The key a row sorts by: text lowercased, and a missing or null value as
    * `''`, which JavaScript compares with an amount as 0. */
  function SortKey(row: Row, field: string): Key {
    match Field(row, field)
    case Null => if IsCurrencyField(field) then NumKey(0) else TextKey("")
    case Num(n) => NumKey(n)
    case Str(s) => TextKey(ToLower(s))
  }

  function DirectionOf(sortedDirection: string): Direction {
    if sortedDirection == "asc" then Asc else Desc
  }

  /** A table sorted by a column, stably, in a direction: ordered by the
    * comparator and a permutation of the table. */
  function SortRows(rows: seq<Row>, field: string, direction: string): (r: seq<Row>)
    ensures SortedBy(r, (row: Row) => SortKey(row, field), DirectionOf(direction))
    ensures multiset(r) == multiset(rows)
  {
    SortBy(rows, (row: Row) => SortKey(row, field), DirectionOf(direction))
  }

  lemma LowerCharIdempotent(c: char)
    ensures LowerChar(LowerChar(c)) == LowerChar(c)
  {
  }

  /** Text sorts without regard to case, and an empty cell sorts as an empty
    * text in a text column and as a zero amount in a currency column. */
  lemma SortKeyProperties(row: Row, field: string, s: string)
    ensures SortKey(row[field := Str(s)], field) == SortKey(row[field := Str(ToLower(s))], field)
    ensures !IsCurrencyField(field) ==> SortKey(row - {field}, field) == SortKey(row[field := Str("")], field)
    ensures IsCurrencyField(field) ==> SortKey(row - {field}, field) == SortKey(row[field := Num(0)], field)
  {
    forall i | 0 <= i < |s| ensures ToLower(ToLower(s))[i] == ToLower(s)[i] {
      LowerCharIdempotent(s[i]);
    }
  }

  class Grid {
    var recordId: string
    var estateAccData: EstateAcc
    var originalEstateAccData: Option<EstateAcc>
    var isChanged: bool
    var isRecordIdAvailable: bool
    var sortedBy: string
    var sortedDirection: string

    constructor (recordId: string)
      ensures this.recordId == recordId
      ensures estateAccData == EstateAcc(map[], Some([]), Some([])) && originalEstateAccData == None
      ensures !isChanged && !isRecordIdAvailable && sortedDirection == "asc"
    {
      this.recordId := recordId;
      estateAccData := EstateAcc(map[], Some([]), Some([]));
      originalEstateAccData := None;
      isChanged := false;
      isRecordIdAvailable := false;
      sortedBy := "";
      sortedDirection := "asc";
    }

    /** `addAssetPlaceholder`. */
    method AddAssetPlaceholder()
      modifies this`estateAccData
      ensures estateAccData == old(estateAccData).(assets := Some(WithPlaceholder(old(estateAccData).assets)))
    {
      var assets := estateAccData.assets;
      if assets.Some? && !(exists i :: 0 <= i < |assets.value| && !HasId(assets.value[i])) {
        estateAccData := estateAccData.(assets := Some(assets.value + [map[]]));
      } else if assets.None? {
        estateAccData := estateAccData.(assets := Some([map[]]));
      }
    }

    /** `addLiabilityPlaceholder`. */
    method AddLiabilityPlaceholder()
      modifies this`estateAccData
      ensures estateAccData == old(estateAccData).(liabilities := Some(WithPlaceholder(old(estateAccData).liabilities)))
    {
      var liabilities := estateAccData.liabilities;
      if liabilities.Some? && !(exists i :: 0 <= i < |liabilities.value| && !HasId(liabilities.value[i])) {
        estateAccData := estateAccData.(liabilities := Some(liabilities.value + [map[]]));
      } else if liabilities.None? {
        estateAccData := estateAccData.(liabilities := Some([map[]]));
      }
    }

    /** `wiredEstateAccData`: the first record of the answer (an empty object
      * when there is none) with both placeholders; then a blank record is
      * asked for, once, when the case has none. */
    method WiredEstateAccData(data: Option<seq<EstateAcc>>) returns (createsBlank: bool)
      modifies this`estateAccData, this`isRecordIdAvailable
      ensures data.Some? ==>
        estateAccData == WithPlaceholders(if |data.value| > 0 then data.value[0] else EstateAcc(map[], None, None))
      ensures data.None? ==> estateAccData == old(estateAccData)
      ensures createsBlank <==> recordId != "" && !Truthy(Field(estateAccData.fields, "Id")) && !old(isRecordIdAvailable)
      ensures isRecordIdAvailable == (old(isRecordIdAvailable) || createsBlank)
    {
      if data.Some? {
        estateAccData := if |data.value| > 0 then data.value[0] else EstateAcc(map[], None, None);
        AddAssetPlaceholder();
        AddLiabilityPlaceholder();
      }
      createsBlank := recordId != "" && !Truthy(Field(estateAccData.fields, "Id")) && !isRecordIdAvailable;
      if createsBlank {
        isRecordIdAvailable := true;
      }
    }

    /** The blank record arrives from `createBlankEstateAcc`. */
    method BlankEstateAccCreated(result: EstateAcc)
      modifies this`estateAccData
      ensures estateAccData == WithPlaceholders(result)
    {
      estateAccData := result;
      AddAssetPlaceholder();
      AddLiabilityPlaceholder();
    }

    /** `handleInputChange`: the named field takes the value, nothing else
      * changes, and the record is marked changed. */
    method HandleInputChange(field: string, value: Scalar)
      modifies this`estateAccData, this`isChanged
      ensures isChanged
      ensures estateAccData.assets == old(estateAccData).assets && estateAccData.liabilities == old(estateAccData).liabilities
      ensures field != "" ==> field in estateAccData.fields && estateAccData.fields[field] == value
      ensures forall k :: k != field || field == "" ==>
        (k in estateAccData.fields <==> k in old(estateAccData).fields) &&
        (k in estateAccData.fields ==> estateAccData.fields[k] == old(estateAccData).fields[k])
    {
      isChanged := true;
      if field != "" {
        estateAccData := estateAccData.(fields := estateAccData.fields[field := value]);
      }
    }

    /** `handleSaveFields`, once the record is stored: the snapshot is taken. */
    method FieldsSaved()
      modifies this`originalEstateAccData, this`isChanged
      ensures originalEstateAccData == Some(estateAccData) && !isChanged
    {
      originalEstateAccData := Some(estateAccData);
      isChanged := false;
    }

    /** `handleCancelFields`: the snapshot comes back; with no snapshot the
      * clone fails and nothing changes. */
    method HandleCancelFields()
      modifies this`estateAccData, this`isChanged
      ensures old(originalEstateAccData).Some? ==> estateAccData == old(originalEstateAccData).value && !isChanged
      ensures old(originalEstateAccData).None? ==> estateAccData == old(estateAccData) && isChanged == old(isChanged)
    {
      if originalEstateAccData.Some? {
        estateAccData := originalEstateAccData.value;
        isChanged := false;
      }
    }

    /** `sortData`: the chosen table sorted by the sort column in the sort
      * direction; the other table and the fields are kept. A missing table
      * cannot be copied and nothing changes. */
    method SortData(tableName: string)
      modifies this`estateAccData
      ensures var before := old(estateAccData);
        if tableName == "assets_datatable" then
          estateAccData == before.(assets := if before.assets.Some? then Some(SortRows(before.assets.value, sortedBy, sortedDirection)) else None)
        else
          estateAccData == before.(liabilities := if before.liabilities.Some? then Some(SortRows(before.liabilities.value, sortedBy, sortedDirection)) else None)
    {
      if tableName == "assets_datatable" {
        if estateAccData.assets.Some? {
          estateAccData := estateAccData.(assets := Some(SortRows(estateAccData.assets.value, sortedBy, sortedDirection)));
        }
      } else {
        if estateAccData.liabilities.Some? {
          estateAccData := estateAccData.(liabilities := Some(SortRows(estateAccData.liabilities.value, sortedBy, sortedDirection)));
        }
      }
    }

    /** `handleSort`: the column and direction are remembered and the table
      * sorted by them. */
    method HandleSort(fieldName: string, sortDirection: string, tableName: string)
      modifies this`sortedBy, this`sortedDirection, this`estateAccData
      ensures sortedBy == fieldName && sortedDirection == sortDirection
      ensures var before := old(estateAccData);
        if tableName == "assets_datatable" then
          estateAccData == before.(assets := if before.assets.Some? then Some(SortRows(before.assets.value, fieldName, sortDirection)) else None)
        else
          estateAccData == before.(liabilities := if before.liabilities.Some? then Some(SortRows(before.liabilities.value, fieldName, sortDirection)) else None)
    {
      sortedBy := fieldName;
      sortedDirection := sortDirection;
      SortData(tableName);
    }
  }
}
