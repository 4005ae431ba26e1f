/** The edit dialog of the related-records table: the records it edits with
  * one entry per text column, the blank record it offers for a new row,
  * edits to one field of one record, and the requests a save sends. */
module DatabaseRecordModal {
  import opened Seqs
  import opened DatabaseScreenLayout

  /** JavaScript truthiness of a field value. */
  predicate Truthy(v: Value) {
    match v
    case Undefined => false
    case Null => false
    case Str(s) => s != ""
    case Num(n) => n != 0
    case Bool(b) => b
  }

  /** The records handed to the dialog: one record or a list of them. */
  datatype RecordData = One(record: Record) | Many(records: seq<Record>)

  /** The list the dialog works on; a single record is wrapped. */
  function AsArray(data: RecordData): (r: seq<Record>)
    ensures data.One? ==> r == [data.record]
    ensures data.Many? ==> r == data.records
  {
    if data.One? then [data.record] else data.records
  }

  /** `getEmptyRecordFields` as a map: every non-empty field name of a column,
    * mapped to the empty text. */
  function EmptyFields(columns: seq<Column>): map<string, Value>
    decreases |columns|
  {
    if columns == [] then map[]
    else
      var fields := EmptyFields(columns[..|columns| - 1]);
      var c := columns[|columns| - 1];
      if c.DataColumn? && c.fieldName != "" then fields[c.fieldName := Str("")] else fields
  }

  /** The blank record holds exactly the named fields, each empty. */
  lemma {:induction false} EmptyFieldsProperties(columns: seq<Column>, key: string)
    ensures key in EmptyFields(columns) <==>
      key != "" && exists i :: 0 <= i < |columns| && columns[i].DataColumn? && columns[i].fieldName == key
    ensures key in EmptyFields(columns) ==> EmptyFields(columns)[key] == Str("")
    decreases |columns|
  {
    if columns != [] {
      var init := columns[..|columns| - 1];
      EmptyFieldsProperties(init, key);
      if exists i :: 0 <= i < |columns| && columns[i].DataColumn? && columns[i].fieldName == key {
        var i :| 0 <= i < |columns| && columns[i].DataColumn? && columns[i].fieldName == key;
        if i < |columns| - 1 {
          assert init[i] == columns[i];
        }
      }
    }
  }

  /** `{ Id: 'new', ...getEmptyRecordFields() }`: a column named `Id` would
    * blank the id. */
  function NewRecord(columns: seq<Column>): Record {
    map["Id" := Str("new")] + EmptyFields(columns)
  }

  /** An entry of the dialog: a column and the record's value for it. */
  datatype FieldEntry = FieldEntry(caption: string, fieldName: string, fieldType: string, value: Value)

  /** An edited record: its id and one entry per text column. */
  datatype Combined = Combined(id: Value, fields: seq<FieldEntry>)

  predicate IsDataColumn(c: Column) {
    c.DataColumn?
  }

  /** `record[column.fieldName] || ''`. */
  function ValueOrEmpty(record: Record, field: string): Value {
    if Truthy(Get(record, field)) then Get(record, field) else Str("")
  }

  /** The entries of a record, one per text column. The source copies each
    * column's own type; a `Column` here carries none, and
    * `DatabaseScreenLayout.CollectColumns` only ever makes text columns, so
    * the type is always "text". */
  function Entries(record: Record, columns: seq<Column>): seq<FieldEntry> {
    var data := Filter(columns, IsDataColumn);
    seq(|data|, i requires 0 <= i < |data| =>
      FieldEntry(data[i].caption, data[i].fieldName, "text", ValueOrEmpty(record, data[i].fieldName)))
  }

  function CombineRecord(record: Record, columns: seq<Column>): Combined {
    Combined(Get(record, "Id"), Entries(record, columns))
  }

  /** `record.Id === subRecordId`. */
  function HasId(id: Value): Record -> bool {
    (r: Record) => Get(r, "Id") == id
  }

  /** The records the dialog edits: those with the chosen id; or, with none
    * chosen outside a case, a single blank record. */
  function FilteredData(data: RecordData, subRecordId: Value, objectApiName: string, columns: seq<Column>): seq<Record> {
    if !Truthy(subRecordId) && objectApiName != BvCaseObject then [NewRecord(columns)]
    else if Truthy(subRecordId) then Filter(AsArray(data), HasId(subRecordId))
    else AsArray(data)
  }

  function CombineAll(records: seq<Record>, columns: seq<Column>): seq<Combined> {
    seq(|records|, i requires 0 <= i < |records| => CombineRecord(records[i], columns))
  }

  /** `connectedCallback`: `combinedData`. */
  function CombinedData(data: RecordData, subRecordId: Value, objectApiName: string, columns: seq<Column>): seq<Combined> {
    CombineAll(FilteredData(data, subRecordId, objectApiName, columns), columns)
  }

  /** Entries stand for the text columns only, in order, and carry the
    * record's value or the empty text when that value is falsy. */
  lemma EntriesProperties(record: Record, columns: seq<Column>)
    ensures var data := Filter(columns, IsDataColumn);
      |Entries(record, columns)| == |data| &&
      forall i :: 0 <= i < |data| ==>
        Entries(record, columns)[i].fieldName == data[i].fieldName &&
        Entries(record, columns)[i].fieldType == "text" &&
        Truthy(Entries(record, columns)[i].value) == Truthy(Get(record, data[i].fieldName)) &&
        (Truthy(Get(record, data[i].fieldName)) ==> Entries(record, columns)[i].value == Get(record, data[i].fieldName))
  {
  }

  /** With a chosen id only records of that id are edited, all of them;
    * with none outside a case there is one blank record, `new` unless a
    * column is named `Id`. */
  lemma CombinedDataProperties(data: RecordData, subRecordId: Value, objectApiName: string, columns: seq<Column>)
    ensures Truthy(subRecordId) ==>
      forall i :: 0 <= i < |CombinedData(data, subRecordId, objectApiName, columns)| ==>
        CombinedData(data, subRecordId, objectApiName, columns)[i].id == subRecordId
    ensures Truthy(subRecordId) ==>
      |CombinedData(data, subRecordId, objectApiName, columns)| == |Filter(AsArray(data), HasId(subRecordId))|
    ensures !Truthy(subRecordId) && objectApiName != BvCaseObject ==>
      var c := CombinedData(data, subRecordId, objectApiName, columns);
      |c| == 1 && (c[0].id == Str("new") <==> !("Id" in EmptyFields(columns))) &&
      forall k :: 0 <= k < |c[0].fields| ==> c[0].fields[k].value == Str("")
    ensures !Truthy(subRecordId) && objectApiName == BvCaseObject ==>
      |CombinedData(data, subRecordId, objectApiName, columns)| == |AsArray(data)|
  {
    if !Truthy(subRecordId) && objectApiName != BvCaseObject {
      var blank := NewRecord(columns);
      var c := CombinedData(data, subRecordId, objectApiName, columns);
      var d := Filter(columns, IsDataColumn);
      forall k | 0 <= k < |c[0].fields| ensures c[0].fields[k].value == Str("") {
        var f := d[k].fieldName;
        EmptyFieldsProperties(columns, f);
        if f != "" && f != "Id" {
          assert d[k] in columns;
          var i :| 0 <= i < |columns| && columns[i] == d[k];
          assert Get(blank, f) == Str("");
        }
      }
      if "Id" in EmptyFields(columns) {
        EmptyFieldsProperties(columns, "Id");
      }
    }
  }

  /** The entry of a record's field set to the typed value. */
  function SetEntry(item: FieldEntry, fieldName: string, value: Value): FieldEntry {
    if item.fieldName == fieldName then item.(value := value) else item
  }

  /** `handleInputChange`: the named field of the record with the given id. */
  function ChangeInput(data: seq<Combined>, recordId: string, fieldName: string, value: Value): (r: seq<Combined>)
    ensures |r| == |data|
  {
    seq(|data|, i requires 0 <= i < |data| =>
      if data[i].id == Str(recordId) then
        data[i].(fields := seq(|data[i].fields|, k requires 0 <= k < |data[i].fields| =>
          SetEntry(data[i].fields[k], fieldName, value)))
      else data[i])
  }

  /** Only the entries of the named field in the records with that id
    * change, and they take the typed value; ids, columns and every other
    * value stay. */
  lemma ChangeInputProperties(data: seq<Combined>, recordId: string, fieldName: string, value: Value)
    ensures var r := ChangeInput(data, recordId, fieldName, value);
      forall i :: 0 <= i < |data| ==>
        r[i].id == data[i].id && |r[i].fields| == |data[i].fields| &&
        forall k :: 0 <= k < |data[i].fields| ==>
          r[i].fields[k].fieldName == data[i].fields[k].fieldName &&
          r[i].fields[k].value ==
            (if data[i].id == Str(recordId) && data[i].fields[k].fieldName == fieldName then value
             else data[i].fields[k].value)
  {
  }

  /** The fields a save sends for one record: each entry's value by field
    * name, a later entry of the same field winning. */
  function SavedFields(fields: seq<FieldEntry>): map<string, Value>
    decreases |fields|
  {
    if fields == [] then map[]
    else SavedFields(fields[..|fields| - 1])[fields[|fields| - 1].fieldName := fields[|fields| - 1].value]
  }

  /** The request for one record: a new record is created under the case, an
    * existing one updated under its own id. */
  datatype SaveRequest = CreateRecord(fields: map<string, Value>) | UpdateRecord(recordId: Value, fields: map<string, Value>)

  function SaveRequestOf(record: Combined, caseId: Value): SaveRequest {
    if record.id == Str("new") then CreateRecord(SavedFields(record.fields)["BV_Case__c" := caseId])
    else UpdateRecord(record.id, SavedFields(record.fields))
  }

  /** The saved fields are the entries' field names, holding the last entry's
    * value for each. */
  lemma {:induction false} SavedFieldsProperties(fields: seq<FieldEntry>, key: string)
    ensures key in SavedFields(fields) <==> exists k :: 0 <= k < |fields| && fields[k].fieldName == key
    ensures key in SavedFields(fields) ==>
      exists k :: 0 <= k < |fields| && fields[k].fieldName == key && SavedFields(fields)[key] == fields[k].value &&
        forall j :: k < j < |fields| ==> fields[j].fieldName != key
    decreases |fields|
  {
    if fields != [] {
      var n := |fields|;
      var init := fields[..n - 1];
      SavedFieldsProperties(init, key);
      if fields[n - 1].fieldName != key {
        if exists k :: 0 <= k < n && fields[k].fieldName == key {
          var k :| 0 <= k < n && fields[k].fieldName == key;
          assert init[k] == fields[k];
        }
        if key in SavedFields(init) {
          var k :| 0 <= k < |init| && init[k].fieldName == key && SavedFields(init)[key] == init[k].value &&
            forall j :: k < j < |init| ==> init[j].fieldName != key;
          assert fields[k] == init[k];
        }
      }
    }
  }

  /** A new record is always created under the case; any other record is
    * updated under its own id with exactly the fields it shows. */
  lemma SaveRequestProperties(record: Combined, caseId: Value)
    ensures record.id == Str("new") ==>
      SaveRequestOf(record, caseId).CreateRecord? &&
      "BV_Case__c" in SaveRequestOf(record, caseId).fields &&
      SaveRequestOf(record, caseId).fields["BV_Case__c"] == caseId
    ensures record.id != Str("new") ==>
      SaveRequestOf(record, caseId) == UpdateRecord(record.id, SavedFields(record.fields))
  {
  }

  class Modal {
    var recordId: Value
    var objectApiName: string
    var recordData: RecordData
    var subRecordId: Value
    var columns: seq<Column>
    var combinedData: seq<Combined>

    constructor (recordId: Value, objectApiName: string, recordData: RecordData, subRecordId: Value, columns: seq<Column>)
      ensures this.recordId == recordId && this.objectApiName == objectApiName
      ensures this.recordData == recordData && this.subRecordId == subRecordId && this.columns == columns
      ensures combinedData == []
    {
      this.recordId := recordId;
      this.objectApiName := objectApiName;
      this.recordData := recordData;
      this.subRecordId := subRecordId;
      this.columns := columns;
      combinedData := [];
    }

    /** `connectedCallback`. */
    method ConnectedCallback()
      modifies this`recordData, this`combinedData
      ensures recordData == Many(AsArray(old(recordData)))
      ensures combinedData == CombinedData(old(recordData), subRecordId, objectApiName, columns)
    {
      ghost var given := recordData;
      recordData := Many(AsArray(recordData));
      assert AsArray(recordData) == AsArray(given);
      var filteredData := AsArray(recordData);
      if Truthy(subRecordId) {
        filteredData := Filter(AsArray(recordData), HasId(subRecordId));
      }
      if !Truthy(subRecordId) && objectApiName != BvCaseObject {
        var emptyFields := GetEmptyRecordFields();
        filteredData := [map["Id" := Str("new")] + emptyFields];
      }
      assert filteredData == FilteredData(given, subRecordId, objectApiName, columns);
      combinedData := CombineAll(filteredData, columns);
    }

    /** `getEmptyRecordFields`: the blank fields written one column at a
      * time. */
    method GetEmptyRecordFields() returns (emptyFields: map<string, Value>)
      ensures emptyFields == EmptyFields(columns)
    {
      emptyFields := map[];
      for i := 0 to |columns|
        invariant emptyFields == EmptyFields(columns[..i])
      {
        var column := columns[i];
        if column.DataColumn? && column.fieldName != "" {
          emptyFields := emptyFields[column.fieldName := Str("")];
        }
        assert columns[..i + 1][..i] == columns[..i];
      }
      assert columns[..|columns|] == columns;
    }

    /** `handleInputChange`. */
    method HandleInputChange(recordIdOfInput: string, fieldName: string, value: Value)
      modifies this`combinedData
      ensures combinedData == ChangeInput(old(combinedData), recordIdOfInput, fieldName, value)
    {
      combinedData := ChangeInput(combinedData, recordIdOfInput, fieldName, value);
    }

    /** `handleSave`: one request per edited record, in order, each built
      * from its entries one at a time. */
    method HandleSave() returns (requests: seq<SaveRequest>)
      ensures |requests| == |combinedData|
      ensures forall i :: 0 <= i < |combinedData| ==> requests[i] == SaveRequestOf(combinedData[i], recordId)
    {
      requests := [];
      for i := 0 to |combinedData|
        invariant |requests| == i
        invariant forall j :: 0 <= j < i ==> requests[j] == SaveRequestOf(combinedData[j], recordId)
      {
        var record := combinedData[i];
        var updatedFields: map<string, Value> := map[];
        for k := 0 to |record.fields|
          invariant updatedFields == SavedFields(record.fields[..k])
        {
          updatedFields := updatedFields[record.fields[k].fieldName := record.fields[k].value];
          assert record.fields[..k + 1][..k] == record.fields[..k];
        }
        assert record.fields[..|record.fields|] == record.fields;
        if record.id == Str("new") {
          updatedFields := updatedFields["BV_Case__c" := recordId];
          requests := requests + [CreateRecord(updatedFields)];
        } else {
          requests := requests + [UpdateRecord(record.id, updatedFields)];
        }
      }
    }
  }
}
